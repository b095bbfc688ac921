/** Fitting a conversation to a budget keeps the provider's whole pairing rule. */
module Fitting {
  import opened Sequences
  import opened Decimals
  import opened Utf8
  import opened Conversation
  import opened Budget
  import RepairTheorems
  import Repair

  /** The half of the pairing rule that `Budget` leaves: every declared call has
      exactly one result in its run. */
  ghost predicate AllAnswered(s: seq<Item>) {
    forall j: nat, id: string :: j < |s| && id in Declares(s[j]) ==> AnsweredOnce(s, j, id)
  }

  // ------------------------------------------------------ parts

  /** Answers are local to a part that comes after others. */
  lemma AnswersInSuffix(a: seq<Item>, b: seq<Item>, j: nat, i: nat, id: string)
    requires j < |b|
    ensures Answers(a + b, |a| + j, |a| + i, id) <==> Answers(b, j, i, id)
  {
    var s := a + b;
    assert forall k :: 0 <= k < |b| ==> s[|a| + k] == b[k];
    if Answers(s, |a| + j, |a| + i, id) {
      forall k | j < k <= i
        ensures b[k].ToolResult?
      {
        assert s[|a| + k].ToolResult?;
      }
    }
    if Answers(b, j, i, id) {
      assert forall k :: |a| + j < k <= |a| + i ==> s[k] == b[k - |a|];
    }
  }

  lemma AnsweredInSuffix(a: seq<Item>, b: seq<Item>, j: nat, id: string)
    requires j < |b|
    ensures AnsweredOnce(a + b, |a| + j, id) <==> AnsweredOnce(b, j, id)
  {
    var s, at := a + b, |a| + j;
    forall i: nat | Answers(b, j, i, id)
      ensures Answers(s, at, |a| + i, id)
    {
      AnswersInSuffix(a, b, j, i, id);
    }
    forall i: nat | Answers(s, at, i, id)
      ensures i >= |a| && Answers(b, j, i - |a|, id)
    {
      AnswersInSuffix(a, b, j, i - |a|, id);
    }
  }

  lemma AnsweredSuffix(s: seq<Item>, at: nat)
    requires at <= |s| && AllAnswered(s)
    ensures AllAnswered(s[at..])
  {
    Split(s, at);
    forall j: nat, id: string | j < |s[at..]| && id in Declares(s[at..][j])
      ensures AnsweredOnce(s[at..], j, id)
    {
      assert s[at + j] == s[at..][j];
      AnsweredInSuffix(s[..at], s[at..], j, id);
    }
  }

  lemma HeadDeclaresNothing(head: seq<Item>, b: seq<Item>)
    requires forall k :: 0 <= k < |head| ==> head[k].System?
    ensures forall j: nat :: j < |head| ==> Declares((head + b)[j]) == {}
    ensures forall j: nat :: |head| <= j < |head + b| ==> (head + b)[j] == b[j - |head|]
  {}

  lemma AnsweredUnderHead(head: seq<Item>, b: seq<Item>)
    requires AllAnswered(b) && forall k :: 0 <= k < |head| ==> head[k].System?
    ensures AllAnswered(head + b)
  {
    var s := head + b;
    HeadDeclaresNothing(head, b);
    forall j: nat, id: string | j < |s| && id in Declares(s[j])
      ensures AnsweredOnce(s, j, id)
    {
      AnsweredInSuffix(head, b, j - |head|, id);
    }
  }

  // ------------------------------------------------------ texts do not matter

  /** The same calls and the same answer, whatever the text. */
  predicate Alike(a: Item, b: Item) {
    && Declares(a) == Declares(b) && (a.ToolResult? <==> b.ToolResult?)
    && (a.ToolResult? ==> a.callId == b.callId)
  }

  /** `t` is like what `s` holds from `at` on. */
  ghost predicate AlikeFrom(s: seq<Item>, at: nat, t: seq<Item>) {
    at + |t| == |s| && forall k: nat {:trigger AlikeAt(s, at, t, k)} :: k < |t| ==> AlikeAt(s, at, t, k)
  }

  predicate AlikeAt(s: seq<Item>, at: nat, t: seq<Item>, k: nat) {
    k < |t| && at + k < |s| && Alike(s[at + k], t[k])
  }

  lemma AnswersAlike(s: seq<Item>, t: seq<Item>, j: nat, i: nat, id: string)
    requires AlikeFrom(s, 0, t)
    ensures Answers(s, j, i, id) <==> Answers(t, j, i, id)
  {
    forall k: nat | k < |s|
      ensures Alike(s[k], t[k])
    {
      assert AlikeAt(s, 0, t, k);
    }
  }

  lemma AnsweredAlike(s: seq<Item>, t: seq<Item>)
    requires AlikeFrom(s, 0, t) && AllAnswered(s)
    ensures AllAnswered(t)
  {
    forall j: nat, id: string | j < |t| && id in Declares(t[j])
      ensures AnsweredOnce(t, j, id)
    {
      assert AlikeAt(s, 0, t, j);
      forall i: nat
        ensures Answers(s, j, i, id) <==> Answers(t, j, i, id)
      {
        AnswersAlike(s, t, j, i, id);
      }
    }
  }

  lemma AlikeSuffix(s: seq<Item>, at: nat, t: seq<Item>)
    requires AlikeFrom(s, at, t)
    ensures AlikeFrom(s[at..], 0, t)
  {
    forall k: nat | k < |t|
      ensures AlikeAt(s[at..], 0, t, k)
    {
      assert AlikeAt(s, at, t, k);
    }
  }

  lemma AnsweredEnd(s: seq<Item>, at: nat, head: seq<Item>, end: seq<Item>)
    requires AllAnswered(s) && AlikeFrom(s, at, end)
    requires forall k :: 0 <= k < |head| ==> head[k].System?
    ensures AllAnswered(head + end)
  {
    AnsweredSuffix(s, at);
    AlikeSuffix(s, at, end);
    AnsweredAlike(s[at..], end);
    AnsweredUnderHead(head, end);
  }

  // ------------------------------------------------------ what fitting leaves

  lemma LastUnitAlike(body: seq<Item>, budget: nat)
    requires body != []
    ensures AlikeFrom(body, |body| - 1, [TruncatedItem(body[|body| - 1], budget)])
  {}

  lemma TruncatedAlike(results: seq<Item>, per: nat)
    ensures AlikeFrom(results, 0, TruncatedAll(results, per))
  {}

  lemma OwnerThenAlike(body: seq<Item>, at: nat, results: seq<Item>, cut: seq<Item>)
    requires |body| == at + 1 + |results| && AlikeFrom(results, 0, cut)
    requires forall k :: 0 <= k < |results| ==> results[k] == body[|body| - |results| + k]
    ensures AlikeFrom(body, at, [body[at]] + cut)
  {
    var end := [body[at]] + cut;
    forall k: nat | k < |end|
      ensures AlikeAt(body, at, end, k)
    {
      if k > 0 {
        var x: nat := k - 1;
        assert AlikeAt(results, 0, cut, x);
        assert results[x] == body[|body| - |results| + x];
      }
    }
  }

  lemma OwnedTailAlike(body: seq<Item>, at: nat, cut: seq<Item>, end: seq<Item>)
    requires at + 1 + |TailResults(body)| == |body| && end == [body[at]] + cut
    requires AlikeFrom(TailResults(body), 0, cut)
    ensures AlikeFrom(body, at, end)
  {
    OwnerThenAlike(body, at, TailResults(body), cut);
  }

  /** The results at the end follow an assistant that made calls. */
  predicate TailIsOwned(body: seq<Item>) {
    TailResults(body) == []
    || (|TailResults(body)| < |body| && TailOwner(body) == [body[|body| - |TailResults(body)| - 1]])
  }

  lemma BodyTailIsOwned(s: seq<Item>)
    requires AllOwned(s)
    ensures TailIsOwned(Body(s))
  {
    BodyStartsTurn(s);
    if TailResults(Body(s)) != [] {
      TailHasOwner(Body(s));
    }
  }

  lemma ResultsUnitIs(body: seq<Item>, budget: nat) returns (cut: seq<Item>)
    requires TailIsOwned(body) && TailResults(body) != []
    ensures TailUnit(body, budget) == [body[|body| - |TailResults(body)| - 1]] + cut
    ensures AlikeFrom(TailResults(body), 0, cut)
  {
    var per := Share(budget, Tokens(TailOwner(body)), |TailResults(body)|);
    cut := TruncatedAll(TailResults(body), per);
    TruncatedAlike(TailResults(body), per);
  }

  /** The tail unit is then the end of the body, but for its texts. */
  lemma TailUnitAlike(body: seq<Item>, budget: nat) returns (at: nat, end: seq<Item>)
    requires TailIsOwned(body)
    ensures end == TailUnit(body, budget) && AlikeFrom(body, at, end)
  {
    end := TailUnit(body, budget);
    if TailResults(body) != [] {
      at := |body| - |TailResults(body)| - 1;
      var cut := ResultsUnitIs(body, budget);
      OwnedTailAlike(body, at, cut, end);
    } else if body != [] {
      at := |body| - 1;
      LastUnitAlike(body, budget);
    } else {
      at := 0;
    }
  }

  lemma KeptSuffixAlike(body: seq<Item>, budget: nat) returns (at: nat, end: seq<Item>)
    ensures end == KeptSuffix(body, budget) && AlikeFrom(body, at, end)
  {
    at := PastResults(body, SuffixStart(body, budget));
    end := KeptSuffix(body, budget);
    SuffixAlike(body, at, end);
  }

  lemma SuffixAlike(s: seq<Item>, at: nat, end: seq<Item>)
    requires at <= |s| && end == s[at..]
    ensures AlikeFrom(s, at, end)
  {}

  /** What fitting leaves is the system item and the end of the rest, but for its
      texts. */
  lemma FittedIsEnd(s: seq<Item>, maxTokens: nat) returns (at: nat, end: seq<Item>)
    requires TailIsOwned(Body(s)) && Tokens(s) > maxTokens
    ensures Fitted(s, maxTokens) == Head(s) + end && AlikeFrom(Body(s), at, end)
  {
    if KeptSuffix(Body(s), BodyBudget(s, maxTokens)) != [] {
      at, end := KeptSuffixAlike(Body(s), BodyBudget(s, maxTokens));
    } else {
      at, end := TailUnitAlike(Body(s), BodyBudget(s, maxTokens));
    }
  }

  lemma FittedIsAnswered(s: seq<Item>, fitted: seq<Item>, at: nat, end: seq<Item>)
    requires AllAnswered(s) && fitted == Head(s) + end && AlikeFrom(Body(s), at, end)
    ensures AllAnswered(fitted)
  {
    AnsweredSuffix(s, |Head(s)|);
    AnsweredEnd(Body(s), at, Head(s), end);
  }

  /** Fitting a paired conversation leaves a paired one, whatever the budget. */
  lemma FittedIsPaired(s: seq<Item>, maxTokens: nat)
    requires ExactlyPaired(s)
    ensures ExactlyPaired(Fitted(s, maxTokens))
  {
    if Tokens(s) > maxTokens {
      FittedStaysPaired(s, maxTokens);
      BodyTailIsOwned(s);
      var at, end := FittedIsEnd(s, maxTokens);
      FittedIsAnswered(s, Fitted(s, maxTokens), at, end);
    }
  }

  /** So repairing and then fitting gives a history that the provider accepts,
      whatever it was, unless an id declared twice in one item was unanswered. */
  lemma FittedRepairIsPaired(s: seq<Item>, reason: Repair.Reason, maxTokens: nat)
    requires RepairTheorems.TwinsSettled(s)
    ensures ExactlyPaired(Fitted(Repair.RepairHistory(s, reason), maxTokens))
  {
    RepairTheorems.RepairPairsEveryCall(s, reason);
    FittedIsPaired(Repair.RepairHistory(s, reason), maxTokens);
  }

  // ------------------------------------------------------ exactly what is kept

  /** Length of the system part. */
  function HeadLen(s: seq<Item>): nat {
    if s != [] && s[0].System? then 1 else 0
  }

  /** What follows from `at` on does not begin with a result, and costs nothing or
      fits the limit together with the system item. */
  predicate Affordable(s: seq<Item>, maxTokens: nat, at: nat) {
    && HeadLen(s) <= at < |s| && !s[at].ToolResult?
    && (Tokens(s[at..]) == 0 || Tokens(s[..HeadLen(s)]) + Tokens(s[at..]) <= maxTokens)
  }

  ghost predicate NothingAffordable(s: seq<Item>, maxTokens: nat) {
    forall k :: !Affordable(s, maxTokens, k)
  }

  lemma InBody(s: seq<Item>, at: nat)
    requires HeadLen(s) <= at <= |s|
    ensures Head(s) == s[..HeadLen(s)] && Body(s) == s[HeadLen(s)..]
    ensures at - HeadLen(s) <= |Body(s)| && Body(s)[at - HeadLen(s)..] == s[at..]
    ensures at < |s| ==> Body(s)[at - HeadLen(s)] == s[at]
  {}

  lemma AffordableInBody(s: seq<Item>, maxTokens: nat, at: nat)
    requires HeadLen(s) <= at < |s|
    ensures Affordable(s, maxTokens, at) <==>
            !s[at].ToolResult? && Tokens(Body(s)[at - HeadLen(s)..]) <= BodyBudget(s, maxTokens)
  {
    InBody(s, at);
  }

  /** Nothing before the cut is affordable. */
  lemma CutIsLeast(s: seq<Item>, maxTokens: nat, k: nat)
    requires Affordable(s, maxTokens, k)
    ensures HeadLen(s) + PastResults(Body(s), SuffixStart(Body(s), BodyBudget(s, maxTokens))) <= k
  {
    var body, budget := Body(s), BodyBudget(s, maxTokens);
    InBody(s, k);
    AffordableInBody(s, maxTokens, k);
    SuffixStartIsLeast(body, budget);
    assert body[k - HeadLen(s)] == s[k];
  }

  lemma CutIsAffordable(s: seq<Item>, maxTokens: nat, cut: nat)
    requires cut < |Body(s)| && !Body(s)[cut].ToolResult? && Tokens(Body(s)[cut..]) <= BodyBudget(s, maxTokens)
    ensures Affordable(s, maxTokens, HeadLen(s) + cut)
  {
    InBody(s, HeadLen(s) + cut);
    AffordableInBody(s, maxTokens, HeadLen(s) + cut);
  }

  lemma CutIsWithin(body: seq<Item>, budget: nat, cut: nat)
    requires cut == PastResults(body, SuffixStart(body, budget))
    ensures Tokens(body[cut..]) <= budget
  {
    SuffixStartIsLeast(body, budget);
    SuffixMonotone(body, SuffixStart(body, budget), cut);
  }

  /** Over the limit, fitting keeps the system item and everything from the first
      affordable position on; the tail is cut only when there is none. */
  lemma FittedIsLongest(s: seq<Item>, maxTokens: nat) returns (at: nat)
    requires Tokens(s) > maxTokens
    ensures HeadLen(s) <= at <= |s| && forall k :: Affordable(s, maxTokens, k) ==> at <= k
    ensures if at < |s| then Affordable(s, maxTokens, at) && Fitted(s, maxTokens) == s[..HeadLen(s)] + s[at..]
            else Fitted(s, maxTokens) == s[..HeadLen(s)] + TailUnit(s[HeadLen(s)..], BodyBudget(s, maxTokens))
  {
    var body, budget := Body(s), BodyBudget(s, maxTokens);
    var cut := PastResults(body, SuffixStart(body, budget));
    at := HeadLen(s) + cut;
    InBody(s, at);
    if cut < |body| {
      CutIsWithin(body, budget, cut);
      CutIsAffordable(s, maxTokens, cut);
    }
    forall k | Affordable(s, maxTokens, k)
      ensures at <= k
    {
      CutIsLeast(s, maxTokens, k);
    }
  }

  /** Every affordable end of the conversation is an end of what fitting leaves. */
  lemma AffordableIsKept(s: seq<Item>, maxTokens: nat, k: nat)
    requires Tokens(s) > maxTokens && Affordable(s, maxTokens, k)
    ensures var f, n := Fitted(s, maxTokens), |s| - k; n <= |f| && f[|f| - n..] == s[k..]
  {
    var at := FittedIsLongest(s, maxTokens);
    EndOfEnd(s[..HeadLen(s)], s, at, k);
  }

  lemma EndOfEnd(head: seq<Item>, s: seq<Item>, at: nat, k: nat)
    requires at <= k <= |s|
    ensures var f := head + s[at..]; |s| - k <= |f| && f[|f| - (|s| - k)..] == s[k..]
  {
    Unsplit(head + s[at..k], s[k..]);
    assert head + s[at..] == (head + s[at..k]) + s[k..];
  }

  // ------------------------------------------------------ exactly what is cut

  /** `t` is `text` when that has at most `limit` bytes; else as many of its first
      characters as leave 64 bytes of the limit, and a note of how many bytes the
      rest had. */
  ghost predicate CutTo(text: string, limit: nat, t: string) {
    if ByteLen(text) <= limit then t == text
    else exists kept, dropped :: IsCut(text, limit, t, kept, dropped)
  }

  ghost predicate IsCut(text: string, limit: nat, t: string, kept: string, dropped: string) {
    && text == kept + dropped && dropped != []
    && t == kept + ("\n[... truncated " + (Decimal(ByteLen(dropped)) + " bytes to fit the compaction window ...]"))
    && ByteLen(kept) + 64 <= (if limit < 64 then 64 else limit) < ByteLen(kept) + 64 + Utf8Len(dropped[0])
  }

  /** Four bytes a token, within 64 bits. */
  function Limit(tokens: nat): nat {
    if 4 * tokens <= 0xFFFF_FFFF_FFFF_FFFF then 4 * tokens else 0xFFFF_FFFF_FFFF_FFFF
  }

  lemma TextIsCut(text: string, limit: nat)
    ensures CutTo(text, limit, TruncatedOr(text, limit))
  {
    if ByteLen(text) > limit {
      TruncatedTextIsLongestCut(text, limit);
      assert IsCut(text, limit, TruncatedOr(text, limit), KeptText(text, limit), DroppedText(text, limit));
    }
  }

  ghost predicate PartCut(part: ContentPart, limit: nat, p: ContentPart) {
    if part.Text? then p.Text? && CutTo(part.text, limit, p.text) else p == part
  }

  lemma {:induction false} PartsAreCut(parts: seq<ContentPart>, limit: nat)
    ensures |TruncatedParts(parts, limit)| == |parts|
    ensures forall k :: 0 <= k < |parts| ==> PartCut(parts[k], limit, TruncatedParts(parts, limit)[k])
  {
    if parts != [] {
      PartsAreCut(parts[1..], limit);
      if parts[0].Text? {
        TextIsCut(parts[0].text, limit);
      }
      forall k | 0 <= k < |parts|
        ensures PartCut(parts[k], limit, TruncatedParts(parts, limit)[k])
      {
        assert k > 0 ==> PartCut(parts[1..][k - 1], limit, TruncatedParts(parts[1..], limit)[k - 1]);
      }
    }
  }

  /** What an item becomes when its texts are cut to a number of tokens. */
  ghost predicate ItemCut(item: Item, tokens: nat, r: Item) {
    match item
    case ToolResult(id, content, images) => r.ToolResult? && r.callId == id && r.images == images && CutTo(content, Limit(tokens), r.content)
    case Assistant(content, calls) => r.Assistant? && r.calls == calls && CutTo(content, Limit(tokens), r.content)
    case User(parts, synthetic) =>
      && r.User? && r.synthetic == synthetic && |r.parts| == |parts|
      && forall k :: 0 <= k < |parts| ==> PartCut(parts[k], Limit(tokens), r.parts[k])
    case _ => r == item
  }

  lemma ItemIsCut(item: Item, tokens: nat)
    ensures ItemCut(item, tokens, TruncatedItem(item, tokens))
  {
    match item
    case ToolResult(_, content, _) => TextIsCut(content, Limit(tokens));
    case Assistant(content, _) => TextIsCut(content, Limit(tokens));
    case User(parts, _) => PartsAreCut(parts, Limit(tokens));
    case _ =>
  }

  /** What is left of the limit after `cost`. */
  function Room(maxTokens: nat, cost: nat): nat {
    if cost <= maxTokens then maxTokens - cost else 0
  }

  /** An equal share of `room` for `n` results, at least one token. */
  ghost predicate IsShare(room: nat, n: nat, share: nat) {
    share >= 1 && (share == 1 || n * share <= room) && room < n * (share + 1)
  }

  lemma ShareIsShare(budget: nat, cost: nat, n: nat)
    requires n > 0
    ensures IsShare(Room(budget, cost), n, Share(budget, cost, n))
  {
    Division(Room(budget, cost), n);
  }

  lemma Division(room: nat, n: nat)
    requires n > 0
    ensures n * (room / n) <= room < n * (room / n + 1)
  {}

  ghost predicate ResultsCut(results: seq<Item>, share: nat, cut: seq<Item>) {
    |cut| == |results| && forall k: nat {:trigger ResultCut(results, share, cut, k)} :: k < |cut| ==> ResultCut(results, share, cut, k)
  }

  ghost predicate ResultCut(results: seq<Item>, share: nat, cut: seq<Item>, k: nat) {
    k < |results| && k < |cut| && ItemCut(results[k], share, cut[k])
  }

  lemma ResultsAreCut(results: seq<Item>, share: nat)
    ensures ResultsCut(results, share, TruncatedAll(results, share))
  {
    forall k: nat | k < |results|
      ensures ResultCut(results, share, TruncatedAll(results, share), k)
    {
      ItemIsCut(results[k], share);
    }
  }

  /** The assistant right before the last `n` items, when it made calls. */
  function CallerBefore(s: seq<Item>, n: nat): seq<Item>
    requires n <= |s|
  {
    if n < |s| && s[|s| - n - 1].Assistant? && s[|s| - n - 1].calls != [] then [s[|s| - n - 1]] else []
  }

  /** `fitted` is `head`, `owner` and `results` cut to an equal share of what `owner`
      leaves of `room`. */
  ghost predicate SharedOut(head: seq<Item>, owner: seq<Item>, results: seq<Item>, room: nat, share: nat, cut: seq<Item>,
                            fitted: seq<Item>) {
    && IsShare(Room(room, Tokens(owner)), |results|, share)
    && ResultsCut(results, share, cut)
    && fitted == head + (owner + cut)
  }

  lemma UnitIsShared(body: seq<Item>, budget: nat, n: nat) returns (share: nat, cut: seq<Item>)
    requires 0 < n == TrailingRun(body)
    ensures IsShare(Room(budget, Tokens(CallerBefore(body, n))), n, share) && ResultsCut(body[|body| - n..], share, cut)
    ensures TailUnit(body, budget) == CallerBefore(body, n) + cut
  {
    share := Share(budget, Tokens(TailOwner(body)), n);
    cut := TruncatedAll(TailResults(body), share);
    ShareIsShare(budget, Tokens(TailOwner(body)), n);
    ResultsAreCut(TailResults(body), share);
  }

  lemma {:induction false} TrailingRunIs(s: seq<Item>, h: nat, n: nat)
    requires h + n <= |s| && forall k :: |s| - n <= k < |s| ==> s[k].ToolResult?
    requires h + n == |s| || !s[|s| - n - 1].ToolResult?
    ensures TrailingRun(s[h..]) == n
  {
    if n > 0 {
      TrailingRunIs(s[..|s| - 1], h, n - 1);
      assert s[h..][..|s| - h - 1] == s[..|s| - 1][h..];
    }
  }

  lemma EndOfSuffix<T>(s: seq<T>, h: nat, n: nat)
    requires h + n <= |s|
    ensures s[h..][|s| - h - n..] == s[|s| - n..]
  {}

  lemma BudgetIsRoom(s: seq<Item>, maxTokens: nat)
    ensures BodyBudget(s, maxTokens) == Room(maxTokens, Tokens(s[..HeadLen(s)]))
  {
    InBody(s, HeadLen(s));
  }

  lemma FittedTail(s: seq<Item>, maxTokens: nat)
    requires Tokens(s) > maxTokens && NothingAffordable(s, maxTokens)
    ensures Fitted(s, maxTokens) == s[..HeadLen(s)] + TailUnit(s[HeadLen(s)..], BodyBudget(s, maxTokens))
  {
    var at := FittedIsLongest(s, maxTokens);
  }

  /** With nothing affordable and `n` results at the end, what is left is the system
      item, the assistant right before the results when it made calls, and every
      one of the results cut to an equal share of what those leave of the limit. */
  lemma TailIsShared(s: seq<Item>, maxTokens: nat, n: nat) returns (share: nat, cut: seq<Item>)
    requires Tokens(s) > maxTokens && NothingAffordable(s, maxTokens)
    requires 0 < n && HeadLen(s) + n <= |s| && forall k :: |s| - n <= k < |s| ==> s[k].ToolResult?
    requires HeadLen(s) + n == |s| || !s[|s| - n - 1].ToolResult?
    ensures var h := HeadLen(s);
            SharedOut(s[..h], CallerBefore(s[h..], n), s[|s| - n..], Room(maxTokens, Tokens(s[..h])), share, cut, Fitted(s, maxTokens))
  {
    var h := HeadLen(s);
    assert 0 < n == TrailingRun(s[h..]) by { TrailingRunIs(s, h, n); }
    assert s[h..][|s| - h - n..] == s[|s| - n..] by { EndOfSuffix(s, h, n); }
    assert Fitted(s, maxTokens) == s[..h] + TailUnit(s[h..], Room(maxTokens, Tokens(s[..h]))) by {
      BudgetIsRoom(s, maxTokens);
      FittedTail(s, maxTokens);
    }
    share, cut := SharedTail(s[..h], s[h..], Room(maxTokens, Tokens(s[..h])), n, Fitted(s, maxTokens));
  }

  lemma SharedTail(head: seq<Item>, body: seq<Item>, budget: nat, n: nat, fitted: seq<Item>) returns (share: nat, cut: seq<Item>)
    requires 0 < n == TrailingRun(body) && fitted == head + TailUnit(body, budget)
    ensures SharedOut(head, CallerBefore(body, n), body[|body| - n..], budget, share, cut, fitted)
  {
    share, cut := UnitIsShared(body, budget, n);
  }

  /** With nothing affordable and no result at the end, the last item alone is left,
      cut to what the system item leaves of the limit. */
  lemma LastIsCut(s: seq<Item>, maxTokens: nat)
    requires Tokens(s) > maxTokens && NothingAffordable(s, maxTokens)
    requires HeadLen(s) < |s| && !s[|s| - 1].ToolResult?
    ensures var f, h := Fitted(s, maxTokens), HeadLen(s);
            && |f| == h + 1 && f[..h] == s[..h]
            && ItemCut(s[|s| - 1], Room(maxTokens, Tokens(s[..h])), f[h])
  {
    FittedTail(s, maxTokens);
    BudgetIsRoom(s, maxTokens);
    TrailingRunIs(s, HeadLen(s), 0);
    ItemIsCut(s[|s| - 1], Room(maxTokens, Tokens(s[..HeadLen(s)])));
  }

  // ------------------------------------------------------ what an item costs

  /** Bytes that the estimate of an item counts. */
  function CountedBytes(item: Item): nat {
    match item
    case System(content) => ByteLen(content)
    case User(parts, _) => TextBytes(parts)
    case Assistant(content, calls) => ByteLen(content) + ArgumentBytes(calls)
    case ToolResult(_, content, _) => ByteLen(content)
    case BackendToolCall(summary) => ByteLen(summary)
    case Reasoning(text, encrypted) => ByteLen(text) + ByteLen(encrypted)
  }

  /** An item costs a token for every four whole bytes of its texts and arguments, and
      765 tokens for each image of a user. */
  lemma CostOfItem(item: Item)
    ensures var images := if item.User? then ImageCount(item.parts) else 0;
            4 * (ItemTokens(item) - 765 * images) <= CountedBytes(item) < 4 * (ItemTokens(item) - 765 * images) + 4
  {}
}
