/** Shrinking a verbatim conversation to a token budget
    (`fit_conversation_to_budget` and its truncation helpers). */
module Budget {
  import opened Wrappers
  import opened Sequences
  import opened Decimals
  import opened Utf8
  import opened Conversation

  const BYTES_PER_TOKEN: nat := 4
  const IMAGE_TOKEN_ESTIMATE: nat := 765
  const MARKER_RESERVE: nat := 64
  const MAX_USIZE: nat := 0xFFFF_FFFF_FFFF_FFFF

  // ------------------------------------------------------ cost

  function TextBytes(parts: seq<ContentPart>): nat {
    if parts == [] then 0
    else (if parts[0].Text? then ByteLen(parts[0].text) else 0) + TextBytes(parts[1..])
  }

  function ImageCount(parts: seq<ContentPart>): nat {
    if parts == [] then 0
    else (if parts[0].Image? then 1 else 0) + ImageCount(parts[1..])
  }

  function ArgumentBytes(calls: seq<ToolCall>): nat {
    if calls == [] then 0 else ByteLen(calls[0].arguments) + ArgumentBytes(calls[1..])
  }

  function ItemTokens(item: Item): nat {
    match item
    case System(content) => ByteLen(content) / BYTES_PER_TOKEN
    case User(parts, _) => TextBytes(parts) / BYTES_PER_TOKEN + ImageCount(parts) * IMAGE_TOKEN_ESTIMATE
    case Assistant(content, calls) => (ByteLen(content) + ArgumentBytes(calls)) / BYTES_PER_TOKEN
    case ToolResult(_, content, _) => ByteLen(content) / BYTES_PER_TOKEN
    case BackendToolCall(summary) => ByteLen(summary) / BYTES_PER_TOKEN
    case Reasoning(text, encrypted) => (ByteLen(text) + ByteLen(encrypted)) / BYTES_PER_TOKEN
  }

  function Tokens(s: seq<Item>): nat {
    if s == [] then 0 else ItemTokens(s[0]) + Tokens(s[1..])
  }

  lemma {:induction false} TokensConcat(a: seq<Item>, b: seq<Item>)
    ensures Tokens(a + b) == Tokens(a) + Tokens(b)
  {
    if a == [] {
      assert a + b == b;
    } else {
      assert (a + b)[1..] == a[1..] + b;
      TokensConcat(a[1..], b);
    }
  }

  function SaturatingSub(a: nat, b: nat): nat {
    if a >= b then a - b else 0
  }

  function Max(a: nat, b: nat): nat {
    if a >= b then a else b
  }

  function Min(a: nat, b: nat): nat {
    if a <= b then a else b
  }

  // ------------------------------------------------------ truncating text

  function MarkerHead(): string { "\n[... truncated " }

  function MarkerTail(): string { " bytes to fit the compaction window ...]" }

  function Marker(dropped: nat): string {
    MarkerHead() + (Decimal(dropped) + MarkerTail())
  }

  lemma MarkerHeadBytes()
    ensures ByteLen(MarkerHead()) == 16
  {
    AsciiByteLen(MarkerHead());
  }

  lemma MarkerTailBytes()
    ensures ByteLen(MarkerTail()) == 40
  {
    AsciiByteLen(MarkerTail());
  }

  lemma MarkerBytes(dropped: nat)
    ensures ByteLen(Marker(dropped)) == 56 + |Decimal(dropped)|
  {
    NumeralBytes(MarkerHead(), dropped, MarkerTail());
    MarkerHeadBytes();
    MarkerTailBytes();
  }

  /** What truncating a text to `maxBytes` gives; `None` when it already fits. */
  function TruncatedText(s: string, maxBytes: nat): Option<string> {
    if ByteLen(s) <= maxBytes then None
    else
      var p := LongestPrefix(s, SaturatingSub(maxBytes, MARKER_RESERVE));
      Some(p + Marker(ByteLen(s) - ByteLen(p)))
  }

  method TruncateTextToBytes(s: string, maxBytes: nat) returns (r: Option<string>)
    ensures r == TruncatedText(s, maxBytes)
  {
    if ByteLen(s) <= maxBytes {
      return None;
    }
    var keep := SaturatingSub(maxBytes, MARKER_RESERVE);
    var end := Min(keep, ByteLen(s));
    while end > 0 && !IsCharBoundary(s, end)
      invariant 0 <= end <= keep
      invariant forall c :: end < c <= keep ==> !IsCharBoundary(s, c)
    {
      end := end - 1;
    }
    LastBoundary(s, keep, end);
    r := Some(SliceTo(s, end) + Marker(ByteLen(s) - end));
  }

  /** The characters a truncated text keeps, and those it drops. */
  function KeptText(s: string, maxBytes: nat): (p: string)
    ensures p <= s
  {
    LongestPrefix(s, SaturatingSub(maxBytes, MARKER_RESERVE))
  }

  function DroppedText(s: string, maxBytes: nat): string {
    s[|KeptText(s, maxBytes)|..]
  }

  /** A truncated text is cut between characters, keeps as many as leave room
      for the marker, and names the number of bytes it dropped. */
  lemma TruncatedTextIsLongestCut(s: string, maxBytes: nat)
    requires ByteLen(s) > maxBytes
    ensures var kept, dropped := KeptText(s, maxBytes), DroppedText(s, maxBytes);
            var keep := SaturatingSub(maxBytes, MARKER_RESERVE);
            && s == kept + dropped && dropped != []
            && TruncatedText(s, maxBytes) == Some(kept + Marker(ByteLen(dropped)))
            && ByteLen(kept) <= keep < ByteLen(kept) + Utf8Len(dropped[0])
  {
    var kept, dropped := KeptText(s, maxBytes), DroppedText(s, maxBytes);
    var keep := SaturatingSub(maxBytes, MARKER_RESERVE);
    Split(s, |kept|);
    assert kept == s[..|kept|];
    ByteLenConcat(kept, dropped);
    assert ByteLen(dropped) > 0;
    Grow(s, |kept|);
    ByteLenConcat(kept, [dropped[0]]);
    if ByteLen(kept) + Utf8Len(dropped[0]) <= keep {
      LongestPrefixIsLongest(s, keep, |kept| + 1);
    }
  }

  /** Bytes that the marker may take past its reserve, which allows for eight
      digits. */
  function Excess(dropped: nat): nat {
    SaturatingSub(|Decimal(dropped)|, 8)
  }

  /** How far a truncated text can be over its limit, and when it is within. */
  lemma TruncatedTextSize(s: string, maxBytes: nat)
    requires ByteLen(s) > maxBytes
    ensures var n := ByteLen(DroppedText(s, maxBytes));
            var size := ByteLen(TruncatedText(s, maxBytes).value);
            && size <= Max(maxBytes, MARKER_RESERVE) + Excess(n)
            && (maxBytes < MARKER_RESERVE ==> size == 56 + |Decimal(ByteLen(s))|)
            && (size <= maxBytes <==> ByteLen(KeptText(s, maxBytes)) + 56 + |Decimal(n)| <= maxBytes)
  {
    var kept, n := KeptText(s, maxBytes), ByteLen(DroppedText(s, maxBytes));
    TruncatedTextIsLongestCut(s, maxBytes);
    MarkerBytes(n);
    ByteLenConcat(kept, Marker(n));
    ByteLenConcat(kept, DroppedText(s, maxBytes));
  }

  /** With at most eight digits of dropped bytes the result fits. */
  lemma TruncatedTextFits(s: string, maxBytes: nat)
    requires ByteLen(s) > maxBytes && ByteLen(DroppedText(s, maxBytes)) < 100_000_000
    ensures ByteLen(TruncatedText(s, maxBytes).value) <= Max(maxBytes, MARKER_RESERVE)
  {
    TruncatedTextSize(s, maxBytes);
    NoExcess(ByteLen(DroppedText(s, maxBytes)));
  }

  lemma NoExcess(bytes: nat)
    requires bytes < 100_000_000
    ensures Excess(bytes) == 0
  {
    Pow10Eight();
    DecimalWidth(bytes, 8);
  }

  lemma Pow10Eight()
    ensures Pow10(8) == 100_000_000
  {
    assert Pow10(4) == 10_000;
  }

  // ------------------------------------------------------ truncating items

  function TruncatedOr(s: string, maxBytes: nat): string {
    match TruncatedText(s, maxBytes)
    case Some(t) => t
    case None => s
  }

  function TruncatedParts(parts: seq<ContentPart>, maxBytes: nat): seq<ContentPart> {
    if parts == [] then []
    else
      [if parts[0].Text? then Text(TruncatedOr(parts[0].text, maxBytes)) else parts[0]]
      + TruncatedParts(parts[1..], maxBytes)
  }

  function ByteLimit(maxTokens: nat): nat {
    Min(maxTokens * 4, MAX_USIZE)
  }

  /** Truncation touches text only; ids, calls and images are kept. */
  function TruncatedItem(item: Item, maxTokens: nat): (r: Item)
    ensures Declares(r) == Declares(item)
    ensures r.ToolResult? <==> item.ToolResult?
    ensures item.ToolResult? ==> r.callId == item.callId
  {
    var maxBytes := ByteLimit(maxTokens);
    match item
    case ToolResult(id, content, images) => ToolResult(id, TruncatedOr(content, maxBytes), images)
    case Assistant(content, calls) => Assistant(TruncatedOr(content, maxBytes), calls)
    case User(parts, synthetic) => User(TruncatedParts(parts, maxBytes), synthetic)
    case _ => item
  }

  method TruncateItemToTokens(item: Item, maxTokens: nat) returns (r: Item)
    ensures r == TruncatedItem(item, maxTokens)
  {
    var maxBytes := ByteLimit(maxTokens);
    r := item;
    if item.ToolResult? {
      var t := TruncateTextToBytes(item.content, maxBytes);
      if t.Some? {
        r := ToolResult(item.callId, t.value, item.images);
      }
    } else if item.Assistant? {
      var t := TruncateTextToBytes(item.content, maxBytes);
      if t.Some? {
        r := Assistant(t.value, item.calls);
      }
    } else if item.User? {
      var parts: seq<ContentPart> := [];
      assert item.parts[0..] == item.parts;
      for k := 0 to |item.parts|
        invariant parts + TruncatedParts(item.parts[k..], maxBytes) == TruncatedParts(item.parts, maxBytes)
      {
        assert item.parts[k..][1..] == item.parts[k + 1..];
        var part := item.parts[k];
        if part.Text? {
          var t := TruncateTextToBytes(part.text, maxBytes);
          if t.Some? {
            part := Text(t.value);
          }
        }
        Assoc(parts, [part], TruncatedParts(item.parts[k + 1..], maxBytes));
        parts := parts + [part];
      }
      r := User(parts, item.synthetic);
    }
  }

  /** A text after truncation, cut or not. */
  lemma TruncatedOrBytes(s: string, maxBytes: nat)
    ensures ByteLen(TruncatedOr(s, maxBytes)) <= Max(maxBytes, MARKER_RESERVE) + Excess(ByteLen(s))
  {
    if ByteLen(s) > maxBytes {
      TruncatedTextIsLongestCut(s, maxBytes);
      ByteLenConcat(KeptText(s, maxBytes), DroppedText(s, maxBytes));
      TruncatedTextSize(s, maxBytes);
      DecimalGrows(ByteLen(DroppedText(s, maxBytes)), ByteLen(s));
    }
  }

  /** Tokens that an item may take past its share. Only the text of a result or
      an assistant is cut, and each text part of a user item is cut to the whole
      share by itself. */
  function Beyond(item: Item, maxTokens: nat): nat {
    match item
    case ToolResult(_, content, _) => (Excess(ByteLen(content)) + 3) / 4
    case Assistant(content, calls) => (Excess(ByteLen(content)) + ArgumentBytes(calls) + 3) / 4
    case User(parts, _) =>
      (PartsBeyond(parts, maxTokens) + 3) / 4 + ImageCount(parts) * IMAGE_TOKEN_ESTIMATE
    case _ => ItemTokens(item)
  }

  /** Bytes of the text parts after the first, and what the markers add. */
  function PartsBeyond(parts: seq<ContentPart>, maxTokens: nat): nat {
    PartsBytes(parts, maxTokens) - if PartsBytes(parts, maxTokens) == 0 then 0 else 4 * Max(maxTokens, 16)
  }

  function PartsBytes(parts: seq<ContentPart>, maxTokens: nat): (n: nat)
    ensures n == 0 || n >= 4 * Max(maxTokens, 16)
  {
    if parts == [] then 0
    else
      (if parts[0].Text? then 4 * Max(maxTokens, 16) + Excess(ByteLen(parts[0].text)) else 0)
      + PartsBytes(parts[1..], maxTokens)
  }

  lemma {:induction false} TruncatedPartsBytes(parts: seq<ContentPart>, maxTokens: nat)
    ensures var r := TruncatedParts(parts, ByteLimit(maxTokens));
            TextBytes(r) <= PartsBytes(parts, maxTokens) && ImageCount(r) == ImageCount(parts)
  {
    if parts != [] {
      var r := TruncatedParts(parts, ByteLimit(maxTokens));
      TruncatedPartsBytes(parts[1..], maxTokens);
      assert r[1..] == TruncatedParts(parts[1..], ByteLimit(maxTokens));
      if parts[0].Text? {
        TruncatedOrBytes(parts[0].text, ByteLimit(maxTokens));
      }
    }
  }

  /** What any truncated item costs. */
  lemma TruncatedItemCost(item: Item, maxTokens: nat)
    ensures ItemTokens(TruncatedItem(item, maxTokens)) <= Max(maxTokens, 16) + Beyond(item, maxTokens)
  {
    match item
    case ToolResult(_, content, _) => TruncatedOrBytes(content, ByteLimit(maxTokens));
    case Assistant(content, _) => TruncatedOrBytes(content, ByteLimit(maxTokens));
    case User(parts, _) => TruncatedPartsBytes(parts, maxTokens);
    case _ =>
  }

  lemma TruncatedResultCost(item: Item, maxTokens: nat)
    requires item.ToolResult?
    ensures ItemTokens(TruncatedItem(item, maxTokens)) <= Max(maxTokens, 16) + Beyond(item, maxTokens)
    ensures ByteLen(item.content) < 100_000_000 ==> Beyond(item, maxTokens) == 0
  {
    TruncatedItemCost(item, maxTokens);
    if ByteLen(item.content) < 100_000_000 {
      NoExcess(ByteLen(item.content));
    }
  }

  // ------------------------------------------------------ fitting

  /** First position of the longest suffix that costs at most `budget`. */
  function SuffixStart(body: seq<Item>, budget: nat): (start: nat)
    ensures start <= |body|
  {
    if body == [] then 0
    else if Tokens(body) <= budget then 0
    else 1 + SuffixStart(body[1..], budget)
  }

  lemma {:induction false} SuffixStartIsLeast(body: seq<Item>, budget: nat)
    ensures Tokens(body[SuffixStart(body, budget)..]) <= budget
    ensures forall i :: 0 <= i < SuffixStart(body, budget) ==> Tokens(body[i..]) > budget
  {
    if body == [] || Tokens(body) <= budget {
      assert body[0..] == body;
    } else {
      var start := SuffixStart(body[1..], budget);
      SuffixStartIsLeast(body[1..], budget);
      assert body[1 + start..] == body[1..][start..];
      forall i | 0 <= i < 1 + start ensures Tokens(body[i..]) > budget {
        if i == 0 {
          assert body[0..] == body;
        } else {
          assert body[i..] == body[1..][i - 1..];
        }
      }
    }
  }

  lemma SuffixTokens(body: seq<Item>, i: nat)
    requires i < |body|
    ensures Tokens(body[i..]) == ItemTokens(body[i]) + Tokens(body[i + 1..])
  {
    assert body[i..][1..] == body[i + 1..];
  }

  /** Earlier suffixes cost at least as much. */
  lemma {:induction false} SuffixMonotone(body: seq<Item>, i: nat, k: nat)
    requires i <= k <= |body|
    ensures Tokens(body[i..]) >= Tokens(body[k..])
    decreases k - i
  {
    if i < k {
      SuffixTokens(body, i);
      SuffixMonotone(body, i + 1, k);
    }
  }

  lemma LeastIsUnique(body: seq<Item>, budget: nat, least: nat, start: nat)
    requires start <= |body| && Tokens(body[start..]) <= budget
    requires start > 0 ==> Tokens(body[start - 1..]) > budget
    requires least <= |body| && Tokens(body[least..]) <= budget
    requires forall i :: 0 <= i < least ==> Tokens(body[i..]) > budget
    ensures start == least
  {
    if least < start {
      SuffixMonotone(body, least, start - 1);
    }
  }

  lemma SuffixStartIs(body: seq<Item>, budget: nat, start: nat)
    requires start <= |body| && Tokens(body[start..]) <= budget
    requires start > 0 ==> Tokens(body[start - 1..]) > budget
    ensures start == SuffixStart(body, budget)
  {
    SuffixStartIsLeast(body, budget);
    LeastIsUnique(body, budget, SuffixStart(body, budget), start);
  }

  /** Number of tool results at the end. */
  function TrailingRun(s: seq<Item>): (n: nat)
    ensures n <= |s|
    ensures forall k :: |s| - n <= k < |s| ==> s[k].ToolResult?
    ensures n < |s| ==> !s[|s| - n - 1].ToolResult?
  {
    if s == [] || !s[|s| - 1].ToolResult? then 0 else 1 + TrailingRun(s[..|s| - 1])
  }

  function TruncatedAll(items: seq<Item>, per: nat): (r: seq<Item>)
    ensures |r| == |items|
    ensures forall k :: 0 <= k < |r| ==> r[k] == TruncatedItem(items[k], per)
  {
    seq(|items|, k requires 0 <= k < |items| => TruncatedItem(items[k], per))
  }

  function TailResults(body: seq<Item>): (r: seq<Item>)
    ensures |r| == TrailingRun(body) && AllResults(r)
    ensures forall k :: 0 <= k < |r| ==> r[k] == body[|body| - |r| + k]
  {
    body[|body| - TrailingRun(body)..]
  }

  /** The assistant right before the trailing results, when it made calls. */
  function TailOwner(body: seq<Item>): seq<Item> {
    var m := |body| - TrailingRun(body) - 1;
    if m >= 0 && body[m].Assistant? && body[m].calls != [] then [body[m]] else []
  }

  /** Budget of each of `n` results once the owner is paid for. */
  function Share(budget: nat, ownerCost: nat, n: nat): nat
    requires n > 0
  {
    Max(SaturatingSub(budget, ownerCost) / n, 1)
  }

  /** The most recent turn, truncated in place. */
  function TailUnit(body: seq<Item>, budget: nat): seq<Item> {
    var results, owner := TailResults(body), TailOwner(body);
    if results != [] then owner + TruncatedAll(results, Share(budget, Tokens(owner), |results|))
    else if body == [] then []
    else [TruncatedItem(body[|body| - 1], budget)]
  }

  /** First position at or after `first` that is not a tool result. */
  function PastResults(body: seq<Item>, first: nat): (cut: nat)
    requires first <= |body|
    ensures first <= cut <= |body|
    ensures forall k :: first <= k < cut ==> body[k].ToolResult?
    ensures cut < |body| ==> !body[cut].ToolResult?
    decreases |body| - first
  {
    if first < |body| && body[first].ToolResult? then PastResults(body, first + 1) else first
  }

  /** The kept body when the suffix branch is taken. */
  function KeptSuffix(body: seq<Item>, budget: nat): seq<Item> {
    body[PastResults(body, SuffixStart(body, budget))..]
  }

  function Head(s: seq<Item>): seq<Item> {
    if s != [] && s[0].System? then s[..1] else []
  }

  function Body(s: seq<Item>): seq<Item> {
    s[|Head(s)|..]
  }

  function BodyBudget(s: seq<Item>, maxTokens: nat): nat {
    SaturatingSub(maxTokens, Tokens(Head(s)))
  }

  function Fitted(s: seq<Item>, maxTokens: nat): seq<Item> {
    if Tokens(s) <= maxTokens then s
    else
      var budget := BodyBudget(s, maxTokens);
      var kept := KeptSuffix(Body(s), budget);
      Head(s) + if kept != [] then kept else TailUnit(Body(s), budget)
  }

  /** Split off the results at the end of `body`. */
  method PopResults(body: seq<Item>) returns (left: seq<Item>, results: seq<Item>)
    ensures left == body[..|body| - TrailingRun(body)]
    ensures results == body[|body| - TrailingRun(body)..]
  {
    left, results := body, [];
    while left != [] && left[|left| - 1].ToolResult?
      invariant |left| <= |body| && left == body[..|left|] && results == body[|left|..]
      invariant TrailingRun(left) + |results| == TrailingRun(body)
      decreases |left|
    {
      Grow(body, |left| - 1);
      results := [left[|left| - 1]] + results;
      left := left[..|left| - 1];
    }
  }

  method TruncateResults(results: seq<Item>, per: nat) returns (r: seq<Item>)
    ensures r == TruncatedAll(results, per)
  {
    r := [];
    for k := 0 to |results|
      invariant r == TruncatedAll(results, per)[..k]
    {
      var item := TruncateItemToTokens(results[k], per);
      Grow(TruncatedAll(results, per), k);
      r := r + [item];
    }
  }

  method RecoverTruncatedTailUnit(body: seq<Item>, budget: nat) returns (tailUnit: seq<Item>)
    ensures tailUnit == TailUnit(body, budget)
  {
    var left, results := PopResults(body);
    if results == [] {
      if left == [] {
        return [];
      }
      var item := TruncateItemToTokens(left[|left| - 1], budget);
      return [item];
    }
    var owner: seq<Item> := [];
    var ownerCost := 0;
    if left != [] && left[|left| - 1].Assistant? && left[|left| - 1].calls != [] {
      owner := [left[|left| - 1]];
      ownerCost := ItemTokens(left[|left| - 1]);
      SingleTokens(left[|left| - 1]);
    }
    assert owner == TailOwner(body) && results == TailResults(body);
    var truncated := TruncateResults(results, Share(budget, ownerCost, |results|));
    tailUnit := owner + truncated;
  }

  /** The greedy backward scan. */
  method ScanBack(body: seq<Item>, budget: nat) returns (start: nat)
    ensures start == SuffixStart(body, budget)
  {
    var remaining := budget;
    start := |body|;
    var i := |body|;
    while i > 0
      invariant 0 <= i == start <= |body|
      invariant 0 <= remaining
      invariant remaining + Tokens(body[start..]) == budget
      decreases i
    {
      i := i - 1;
      SuffixTokens(body, i);
      var cost := ItemTokens(body[i]);
      if cost > remaining {
        break;
      }
      remaining := remaining - cost;
      start := i;
    }
    SuffixStartIs(body, budget, start);
  }

  /** Step over results left without their assistant. */
  method SkipResults(body: seq<Item>, first: nat) returns (start: nat)
    requires first <= |body|
    ensures start == PastResults(body, first)
  {
    start := first;
    while start < |body| && body[start].ToolResult?
      invariant first <= start <= |body|
      invariant PastResults(body, start) == PastResults(body, first)
    {
      start := start + 1;
    }
  }

  method FitConversationToBudget(conversation: seq<Item>, maxTokens: nat) returns (fitted: seq<Item>)
    ensures fitted == Fitted(conversation, maxTokens)
  {
    var total := Tokens(conversation);
    if total <= maxTokens {
      return conversation;
    }
    var head: seq<Item> := [];
    var body := conversation;
    if body != [] && body[0].System? {
      head := [body[0]];
      body := body[1..];
    }
    assert head == Head(conversation) && body == Body(conversation);
    var budget := SaturatingSub(maxTokens, Tokens(head));
    var start := ScanBack(body, budget);
    start := SkipResults(body, start);
    if start < |body| {
      fitted := head + body[start..];
    } else {
      var tailUnit := RecoverTruncatedTailUnit(body, budget);
      fitted := head + tailUnit;
    }
  }

  // ------------------------------------------------------ what fitting keeps

  ghost predicate AllOwned(s: seq<Item>) {
    forall i: nat :: i < |s| && s[i].ToolResult? ==> Owned(s, i)
  }

  /** Ownership is local to a part that does not begin with a result. */
  lemma OwnedInSuffix(a: seq<Item>, b: seq<Item>, i: nat)
    requires StartsTurn(b) && i < |b| && b[i].ToolResult?
    ensures Owned(a + b, |a| + i) <==> Owned(b, i)
  {
    var s := a + b;
    assert forall k :: 0 <= k < |b| ==> s[|a| + k] == b[k];
    if Owned(b, i) {
      var j: nat :| Owns(b, j, i);
      assert forall k :: |a| + j < k <= |a| + i ==> s[k] == b[k - |a|];
      assert Owns(s, |a| + j, |a| + i);
    }
    if Owned(s, |a| + i) {
      var j: nat :| Owns(s, j, |a| + i);
      assert s[|a|] == b[0];
      assert j >= |a|;
      assert Owns(b, j - |a|, i);
    }
  }

  lemma AllOwnedSuffix(a: seq<Item>, b: seq<Item>)
    requires StartsTurn(b) && AllOwned(a + b)
    ensures AllOwned(b)
  {
    forall i: nat | i < |b| && b[i].ToolResult? ensures Owned(b, i) {
      assert (a + b)[|a| + i] == b[i];
      OwnedInSuffix(a, b, i);
    }
  }

  lemma AllOwnedUnderHead(head: seq<Item>, b: seq<Item>)
    requires StartsTurn(b) && AllOwned(b)
    requires forall k :: 0 <= k < |head| ==> !head[k].ToolResult?
    ensures AllOwned(head + b)
  {
    forall i: nat | i < |head + b| && (head + b)[i].ToolResult? ensures Owned(head + b, i) {
      if i >= |head| {
        OwnedInSuffix(head, b, i - |head|);
      }
    }
  }

  /** In a paired body the trailing results follow the assistant that owns them. */
  lemma TrailingOwner(body: seq<Item>, i: nat)
    requires AllOwned(body) && |body| - TrailingRun(body) <= i < |body|
    ensures TrailingRun(body) < |body| && Owns(body, |body| - TrailingRun(body) - 1, i)
  {
    assert Owned(body, i);
    var j: nat :| Owns(body, j, i);
    assert j == |body| - TrailingRun(body) - 1;
  }

  lemma UnitOwned(owner: Item, results: seq<Item>)
    requires !owner.ToolResult? && AllResults(results) && forall k :: 0 <= k < |results| ==> results[k].callId in Declares(owner)
    ensures AllOwned([owner] + results)
  {
    var s := [owner] + results;
    forall i: nat | i < |s| && s[i].ToolResult? ensures Owned(s, i) {
      assert s[i] == results[i - 1];
      assert Owns(s, 0, i);
    }
  }

  lemma TrailingDeclared(body: seq<Item>, i: nat)
    requires AllOwned(body) && |body| - TrailingRun(body) <= i < |body|
    ensures TrailingRun(body) < |body|
    ensures var owner := body[|body| - TrailingRun(body) - 1];
            owner.Assistant? && owner.calls != [] && body[i].callId in Declares(owner)
  {
    TrailingOwner(body, i);
  }

  lemma TailHasOwner(body: seq<Item>)
    requires AllOwned(body) && TrailingRun(body) > 0
    ensures TrailingRun(body) < |body|
    ensures TailOwner(body) == [body[|body| - TrailingRun(body) - 1]]
  {
    TrailingDeclared(body, |body| - 1);
  }

  lemma PairedTail(body: seq<Item>)
    requires AllOwned(body) && TrailingRun(body) > 0
    ensures var results := TailResults(body);
            && |results| < |body|
            && TailOwner(body) == [body[|body| - |results| - 1]]
            && forall k :: 0 <= k < |results| ==> results[k].callId in Declares(TailOwner(body)[0])
  {
    TailHasOwner(body);
    var results, owner := TailResults(body), TailOwner(body)[0];
    forall k | 0 <= k < |results| ensures results[k].callId in Declares(owner) {
      TrailingDeclared(body, |body| - |results| + k);
    }
  }

  lemma NoResultsOwned(s: seq<Item>)
    requires forall k :: 0 <= k < |s| ==> !s[k].ToolResult?
    ensures AllOwned(s) && StartsTurn(s)
  {}

  lemma TailUnitOwned(body: seq<Item>, budget: nat)
    requires AllOwned(body)
    ensures AllOwned(TailUnit(body, budget)) && StartsTurn(TailUnit(body, budget))
  {
    var results, owner := TailResults(body), TailOwner(body);
    if results != [] {
      PairedTail(body);
      UnitOwned(owner[0], TruncatedAll(results, Share(budget, Tokens(owner), |results|)));
    } else {
      NoResultsOwned(TailUnit(body, budget));
    }
  }

  lemma BodyStartsTurn(s: seq<Item>)
    requires AllOwned(s)
    ensures StartsTurn(Body(s)) && AllOwned(Body(s))
  {
    var head, body := Head(s), Body(s);
    Split(s, |head|);
    assert body != [] ==> s[|head|] == body[0];
    AllOwnedSuffix(head, body);
  }

  /** A leading system item is kept in front, whatever the budget,
      and a conversation within the budget is left alone. */
  lemma SystemStaysFirst(s: seq<Item>, maxTokens: nat)
    ensures s != [] && s[0].System? ==> Fitted(s, maxTokens) != [] && Fitted(s, maxTokens)[0] == s[0]
    ensures Tokens(s) <= maxTokens ==> Fitted(s, maxTokens) == s
  {
  }

  lemma SuffixOwned(body: seq<Item>, cut: nat)
    requires AllOwned(body) && cut <= |body| && (cut < |body| ==> !body[cut].ToolResult?)
    ensures StartsTurn(body[cut..]) && AllOwned(body[cut..])
  {
    Split(body, cut);
    AllOwnedSuffix(body[..cut], body[cut..]);
  }

  /** Fitting keeps every tool result next to its owner, in both branches. */
  lemma FittedStaysPaired(s: seq<Item>, maxTokens: nat)
    requires AllOwned(s)
    ensures AllOwned(Fitted(s, maxTokens))
  {
    if Tokens(s) > maxTokens {
      var head, body, budget := Head(s), Body(s), BodyBudget(s, maxTokens);
      var cut := PastResults(body, SuffixStart(body, budget));
      BodyStartsTurn(s);
      SuffixOwned(body, cut);
      AllOwnedUnderHead(head, body[cut..]);
      TailUnitOwned(body, budget);
      AllOwnedUnderHead(head, TailUnit(body, budget));
    }
  }

  /** When the conversation is over budget and a suffix survives, the kept body
      is the longest suffix within the budget less only its leading results. */
  lemma KeptSuffixIsLongest(s: seq<Item>, maxTokens: nat)
    requires Tokens(s) > maxTokens && KeptSuffix(Body(s), BodyBudget(s, maxTokens)) != []
    ensures var body, budget := Body(s), BodyBudget(s, maxTokens);
            var start := SuffixStart(body, budget);
            var cut := PastResults(body, start);
            && Tokens(body[start..]) <= budget
            && (forall i :: 0 <= i < start ==> Tokens(body[i..]) > budget)
            && start <= cut < |body| && !body[cut].ToolResult?
            && (forall k :: start <= k < cut ==> body[k].ToolResult?)
            && Fitted(s, maxTokens) == Head(s) + body[cut..]
  {
    SuffixStartIsLeast(Body(s), BodyBudget(s, maxTokens));
  }

  /** The suffix branch never exceeds the larger of the limit and the system item. */
  lemma SuffixBranchFits(s: seq<Item>, maxTokens: nat)
    requires Tokens(s) > maxTokens && KeptSuffix(Body(s), BodyBudget(s, maxTokens)) != []
    ensures Tokens(Fitted(s, maxTokens)) <= Max(maxTokens, Tokens(Head(s)))
  {
    var body, budget := Body(s), BodyBudget(s, maxTokens);
    var start := SuffixStart(body, budget);
    var cut := PastResults(body, start);
    SuffixStartIsLeast(body, budget);
    SuffixMonotone(body, start, cut);
    TokensConcat(Head(s), body[cut..]);
  }

  function AllBeyond(results: seq<Item>, per: nat): nat {
    if results == [] then 0 else Beyond(results[0], per) + AllBeyond(results[1..], per)
  }

  lemma {:induction false} TruncatedAllCost(results: seq<Item>, per: nat)
    ensures Tokens(TruncatedAll(results, per)) <= |results| * Max(per, 16) + AllBeyond(results, per)
  {
    if results != [] {
      var r := TruncatedAll(results, per);
      TruncatedItemCost(results[0], per);
      TruncatedAllCost(results[1..], per);
      assert r[1..] == TruncatedAll(results[1..], per);
      assert |results| * Max(per, 16) == Max(per, 16) + (|results| - 1) * Max(per, 16);
    }
  }

  /** Results under 10^8 bytes take nothing past their share. */
  lemma {:induction false} ShortResultsFit(results: seq<Item>, per: nat)
    requires AllResults(results)
    requires forall k :: 0 <= k < |results| ==> ByteLen(results[k].content) < 100_000_000
    ensures AllBeyond(results, per) == 0
  {
    if results != [] {
      NoExcess(ByteLen(results[0].content));
      ShortResultsFit(results[1..], per);
    }
  }

  /** The cost of the tail unit, whatever the body is: the owner's, what it
      leaves of the budget or sixteen tokens a result, and the tokens the items
      may take past their share. */
  function TailCost(body: seq<Item>, budget: nat): nat {
    var results, owner := TailResults(body), Tokens(TailOwner(body));
    if results != [] then
      owner + Max(SaturatingSub(budget, owner), 16 * |results|) + AllBeyond(results, Share(budget, owner, |results|))
    else if body == [] then 0
    else Max(budget, 16) + Beyond(body[|body| - 1], budget)
  }

  lemma TailUnitCost(body: seq<Item>, budget: nat)
    ensures Tokens(TailUnit(body, budget)) <= TailCost(body, budget)
  {
    var results, owner := TailResults(body), TailOwner(body);
    if results != [] {
      var per := Share(budget, Tokens(owner), |results|);
      TruncatedAllCost(results, per);
      PerResult(SaturatingSub(budget, Tokens(owner)), |results|);
      TokensConcat(owner, TruncatedAll(results, per));
    } else if body != [] {
      TruncatedItemCost(body[|body| - 1], budget);
      SingleTokens(TruncatedItem(body[|body| - 1], budget));
    }
  }

  lemma SingleTokens(item: Item)
    ensures Tokens([item]) == ItemTokens(item)
  {
    assert [item][1..] == [];
  }

  /** When no suffix is kept, the output costs at most the system item and the
      tail unit, for every conversation. */
  lemma TailBranchFits(s: seq<Item>, maxTokens: nat)
    requires Tokens(s) > maxTokens && KeptSuffix(Body(s), BodyBudget(s, maxTokens)) == []
    ensures Tokens(Fitted(s, maxTokens)) <= Tokens(Head(s)) + TailCost(Body(s), BodyBudget(s, maxTokens))
  {
    TailUnitCost(Body(s), BodyBudget(s, maxTokens));
    TokensConcat(Head(s), TailUnit(Body(s), BodyBudget(s, maxTokens)));
  }

  lemma PerResult(room: nat, n: nat)
    requires n > 0
    ensures n * Max(Max(room / n, 1), 16) <= Max(room, 16 * n)
  {
    if room / n > 16 {
      assert n * (room / n) <= room;
    }
  }
}
