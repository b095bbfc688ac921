/** Building the compacted history: which messages are carried over and where
    they are placed. */
module Compaction {
  import opened Wrappers
  import opened Sequences
  import opened Conversation
  import opened Sanitize
  import opened UserQuery

  function OmittedContent(): string { "Tool call omitted..." }

  // ------------------------------------------------------ extraction

  /** Position after the last real user turn; 0 when there is none. */
  function TailStart(s: seq<Item>): (start: nat)
    ensures start <= |s|
  {
    if s == [] then 0
    else if IsRealUserTurn(s[|s| - 1]) then |s|
    else TailStart(s[..|s| - 1])
  }

  /** The boundary is the last real user turn. */
  lemma {:induction false} TailStartIsLast(s: seq<Item>)
    ensures var start := TailStart(s);
            && (start > 0 ==> IsRealUserTurn(s[start - 1]))
            && forall k :: start <= k < |s| ==> !IsRealUserTurn(s[k])
  {
    if s != [] && !IsRealUserTurn(s[|s| - 1]) {
      var init := s[..|s| - 1];
      TailStartIsLast(init);
      assert forall k :: 0 <= k < |init| ==> init[k] == s[k];
    }
  }

  /** Assistants as they are, results with a placeholder, nothing else. */
  function Carried(s: seq<Item>): seq<Item> {
    if s == [] then []
    else
      (match s[0]
       case Assistant(_, _) => [s[0]]
       case ToolResult(id, _, _) => [ToolResult(id, OmittedContent(), [])]
       case _ => [])
      + Carried(s[1..])
  }

  function MessagesSinceLastRealUser(conversation: seq<Item>): seq<Item> {
    Carried(conversation[TailStart(conversation)..])
  }

  function LastRealUserQuery(conversation: seq<Item>): Option<string> {
    var start := TailStart(conversation);
    if start == 0 || !conversation[start - 1].User? then None
    else Some(ExtractUserQuery(JoinedText(conversation[start - 1].parts)))
  }

  // ------------------------------------------------------ building

  datatype Input = Input(
    systemMessage: Item,
    userMessagePrefix: string,
    agentsMdReminder: Option<string>,
    recentMessages: seq<Item>,
    lastUserQuery: Option<string>,
    compactionSummary: string,
    systemReminder: Option<string>,
    transcriptHint: Option<string>)

  function UserMeta(text: string): Item { User([Text(text)], Some(CompactionMeta)) }

  function ContinuationPreamble(): string {
    "This session is being continued from a previous conversation " + ("that ran out of context. "
    + "The summary below covers the earlier portion of the conversation.\n\n")
  }

  function OrEmpty(text: Option<string>): string {
    if text.Some? then text.value else ""
  }

  /** The text that replaces the compacted conversation, once cleaned. */
  function SummaryText(cleaned: string, hint: Option<string>): string {
    ContinuationPreamble() + cleaned + OrEmpty(hint)
  }

  function Optional(text: Option<string>, reason: Option<SyntheticReason>): seq<Item> {
    if text.Some? then [User([Text(text.value)], reason)] else []
  }

  function Wrapped(query: Option<string>): Option<string> {
    if query.Some? then Some(WrapUserQuery(query.value)) else None
  }

  /** What precedes the carried messages. */
  function Preamble(input: Input): seq<Item> {
    [input.systemMessage, UserMeta(input.userMessagePrefix)]
    + Optional(input.agentsMdReminder, Some(ProjectInstructions))
    + Optional(Wrapped(input.lastUserQuery), None)
  }

  /** What follows them. */
  function Closing(summaryText: string, systemReminder: Option<string>): seq<Item> {
    [UserMeta(summaryText)] + Optional(systemReminder, Some(SystemReminder))
  }

  /** The compacted history, given the text of its summary. */
  function Compacted(input: Input, summaryText: string): seq<Item> {
    Preamble(input) + input.recentMessages + Closing(summaryText, input.systemReminder)
  }

  method AppendAll(items: seq<Item>, more: seq<Item>) returns (r: seq<Item>)
    ensures r == items + more
  {
    r := items;
    for k := 0 to |more|
      invariant r == items + more[..k]
    {
      r := r + [more[k]];
    }
  }

  method AssembleHistory(input: Input, summaryText: string) returns (compacted: seq<Item>)
    ensures compacted == Compacted(input, summaryText)
  {
    compacted := [input.systemMessage, UserMeta(input.userMessagePrefix)];
    if input.agentsMdReminder.Some? {
      compacted := compacted + [User([Text(input.agentsMdReminder.value)], Some(ProjectInstructions))];
    }
    if input.lastUserQuery.Some? {
      compacted := compacted + [User([Text(WrapUserQuery(input.lastUserQuery.value))], None)];
    }
    compacted := AppendAll(compacted, input.recentMessages);
    compacted := compacted + [UserMeta(summaryText)];
    if input.systemReminder.Some? {
      compacted := compacted + [User([Text(input.systemReminder.value)], Some(SystemReminder))];
    }
  }

  method BuildCompactedHistory(input: Input) returns (compacted: seq<Item>)
    ensures compacted ==
            Compacted(input, SummaryText(SummaryFormat.FormatSummary(input.compactionSummary), input.transcriptHint))
    ensures Framed(input, compacted, ContinuationPreamble())
  {
    var cleaned := SummaryFormat.FormatCompactSummary(input.compactionSummary);
    compacted := AssembleHistory(input, SummaryText(cleaned, input.transcriptHint));
    BuiltIsFramed(input, cleaned);
  }

  lemma BuiltIsFramed(input: Input, cleaned: string)
    requires cleaned == SummaryFormat.FormatSummary(input.compactionSummary)
    ensures Framed(input, Compacted(input, SummaryText(cleaned, input.transcriptHint)), ContinuationPreamble())
  {
    SummaryHolds(input, ContinuationPreamble(), cleaned, SummaryText(cleaned, input.transcriptHint));
    CompactedIsFramed(input, SummaryText(cleaned, input.transcriptHint), ContinuationPreamble());
  }

  // ------------------------------------------------------ what is where

  function Count<T>(o: Option<T>): nat {
    if o.Some? then 1 else 0
  }

  /** Position of the first carried message. */
  function RecentAt(input: Input): nat {
    2 + Count(input.agentsMdReminder) + Count(input.lastUserQuery)
  }

  /** The system item and the prefix first, then the project instructions and the
      query when they are given. */
  ghost predicate Opened(input: Input, c: seq<Item>)
    requires RecentAt(input) <= |c|
  {
    && c[0] == input.systemMessage
    && c[1] == User([Text(input.userMessagePrefix)], Some(CompactionMeta))
    && (input.agentsMdReminder.Some? ==> c[2] == User([Text(input.agentsMdReminder.value)], Some(ProjectInstructions)))
    && (input.lastUserQuery.Some? ==>
          c[RecentAt(input) - 1] == User([Text("<user_query>\n" + input.lastUserQuery.value + "\n</user_query>")], None))
  }

  /** The text of the summary item: after the words that announce it the summary,
      cleaned, and nothing more but the hint when there is one. */
  ghost predicate TellsSummary(input: Input, text: string, announcement: string) {
    text == announcement
            + (SummaryFormat.FormatSummary(input.compactionSummary)
               + if input.transcriptHint.Some? then input.transcriptHint.value else "")
  }

  /** The summary right after the carried messages, and the reminder, when there is
      one, last. */
  ghost predicate Closed(input: Input, c: seq<Item>, at: nat, announcement: string) {
    && |c| == at + 1 + Count(input.systemReminder)
    && c[at].User? && c[at].synthetic == Some(CompactionMeta) && |c[at].parts| == 1 && c[at].parts[0].Text?
    && TellsSummary(input, c[at].parts[0].text, announcement)
    && (input.systemReminder.Some? ==> c[at + 1] == User([Text(input.systemReminder.value)], Some(SystemReminder)))
  }

  ghost predicate Framed(input: Input, c: seq<Item>, announcement: string) {
    var at := RecentAt(input) + |input.recentMessages|;
    at < |c| && Opened(input, c) && c[RecentAt(input)..at] == input.recentMessages && Closed(input, c, at, announcement)
  }

  lemma SummaryHolds(input: Input, announcement: string, cleaned: string, text: string)
    requires cleaned == SummaryFormat.FormatSummary(input.compactionSummary)
    requires text == announcement + cleaned + OrEmpty(input.transcriptHint)
    ensures TellsSummary(input, text, announcement)
  {
    Assoc(announcement, cleaned, OrEmpty(input.transcriptHint));
  }

  lemma CompactedIsFramed(input: Input, text: string, announcement: string)
    requires TellsSummary(input, text, announcement)
    ensures Framed(input, Compacted(input, text), announcement)
  {
    PreambleIsOpening(input);
    PartsInPlace(Preamble(input), input.recentMessages, Closing(text, input.systemReminder));
  }

  lemma PreambleIsOpening(input: Input)
    ensures |Preamble(input)| == RecentAt(input) && Opened(input, Preamble(input))
  {
    assert input.lastUserQuery.Some? ==>
        WrapUserQuery(input.lastUserQuery.value) == "<user_query>\n" + input.lastUserQuery.value + "\n</user_query>";
  }

  lemma PartsInPlace(a: seq<Item>, b: seq<Item>, c: seq<Item>)
    ensures var s := a + b + c;
            && (forall k :: 0 <= k < |a| ==> s[k] == a[k]) && s[|a|..|a| + |b|] == b
            && forall k :: 0 <= k < |c| ==> s[|a| + |b| + k] == c[k]
  {}

  /** Positions from `k` on that are carried over. */
  function CarriedAt(s: seq<Item>, k: nat): seq<nat>
    requires k <= |s|
    decreases |s| - k
  {
    if k == |s| then []
    else (if s[k].Assistant? || s[k].ToolResult? then [k] else []) + CarriedAt(s, k + 1)
  }

  /** What is carried of an assistant, and of a result. */
  function CarriedItem(item: Item): Item {
    if item.ToolResult? then ToolResult(item.callId, "Tool call omitted...", []) else item
  }

  lemma {:induction false} CarriedByPosition(s: seq<Item>, k: nat)
    requires k <= |s|
    ensures var at, c := CarriedAt(s, k), Carried(s[k..]);
            && |at| == |c| && (forall i :: 0 <= i < |at| ==> k <= at[i] < |s| && c[i] == CarriedItem(s[at[i]]))
            && (forall i, j :: 0 <= i < j < |at| ==> at[i] < at[j])
            && forall p: nat :: p in at <==> k <= p < |s| && (s[p].Assistant? || s[p].ToolResult?)
    decreases |s| - k
  {
    if k < |s| {
      CarriedByPosition(s, k + 1);
      assert s[k..][0] == s[k] && s[k..][1..] == s[k + 1..];
    }
  }

  /** The carried messages: every assistant and every result after the last real user
      turn, in order, results with a placeholder, and nothing else. */
  lemma MessagesByPosition(conversation: seq<Item>) returns (at: seq<nat>)
    ensures var start, c := TailStart(conversation), MessagesSinceLastRealUser(conversation);
            && |at| == |c| && (forall i :: 0 <= i < |at| ==> at[i] < |conversation| && c[i] == CarriedItem(conversation[at[i]]))
            && (forall i, j :: 0 <= i < j < |at| ==> at[i] < at[j])
            && forall p: nat :: p in at <==>
                 start <= p < |conversation| && (conversation[p].Assistant? || conversation[p].ToolResult?)
  {
    at := CarriedAt(conversation, TailStart(conversation));
    CarriedByPosition(conversation, TailStart(conversation));
  }

  /** The input the caller assembles from a conversation. */
  function InputFor(conversation: seq<Item>, input: Input): Input {
    input.(recentMessages := MessagesSinceLastRealUser(conversation),
           lastUserQuery := LastRealUserQuery(conversation))
  }

  // ------------------------------------------------------ main results

  ghost predicate Inert(s: seq<Item>) {
    forall k :: 0 <= k < |s| ==> !s[k].ToolResult? && !s[k].Assistant?
  }

  lemma {:induction false} UnmatchedAroundInert(a: seq<Item>, b: seq<Item>, seen: set<string>)
    requires Inert(a)
    ensures Unmatched(a + b, seen) == Unmatched(b, seen)
  {
    if a == [] {
      assert a + b == b;
    } else {
      assert (a + b)[1..] == a[1..] + b;
      assert seen + Declares(a[0]) == seen;
      UnmatchedAroundInert(a[1..], b, seen);
    }
  }

  lemma {:induction false} UnmatchedBeforeInert(a: seq<Item>, b: seq<Item>, seen: set<string>)
    requires Inert(b)
    ensures Unmatched(a + b, seen) == Unmatched(a, seen)
  {
    if a == [] {
      assert a + b == b + [];
      UnmatchedAroundInert(b, [], seen);
    } else {
      assert (a + b)[1..] == a[1..] + b;
      UnmatchedBeforeInert(a[1..], b, seen + Declares(a[0]));
    }
  }

  lemma {:induction false} CarryingKeepsTheVerdict(s: seq<Item>, seen: set<string>)
    ensures Unmatched(Carried(s), seen) == Unmatched(s, seen)
  {
    if s != [] {
      var rest := Carried(s[1..]);
      CarryingKeepsTheVerdict(s[1..], seen + Declares(s[0]));
      if s[0].Assistant? {
        Tail(s[0], rest);
      } else {
        assert seen + Declares(s[0]) == seen;
        if s[0].ToolResult? {
          Tail(ToolResult(s[0].callId, OmittedContent(), []), rest);
        } else {
          assert Carried(s) == rest;
        }
      }
    }
  }

  /** Every result from `start` on has its call at or after `start`, before it. */
  ghost predicate SelfContainedFrom(s: seq<Item>, start: nat) {
    forall i: nat :: start <= i < |s| && s[i].ToolResult? ==> CalledSince(s, start, i)
  }

  ghost predicate CalledSince(s: seq<Item>, start: nat, i: nat)
    requires i < |s| && s[i].ToolResult?
  {
    exists j: nat :: start <= j < i && s[i].callId in Declares(s[j])
  }

  lemma CalledSinceInTail(s: seq<Item>, start: nat, i: nat)
    requires start <= i < |s| && s[i].ToolResult?
    ensures s[start..][i - start] == s[i]
    ensures CalledSince(s, start, i) <==> CalledBefore(s[start..], i - start)
  {
    var t := s[start..];
    if CalledSince(s, start, i) {
      var j: nat :| start <= j < i && s[i].callId in Declares(s[j]);
      assert t[j - start] == s[j];
    }
    if CalledBefore(t, i - start) {
      var j: nat :| j < i - start && t[i - start].callId in Declares(t[j]);
      assert s[start + j] == t[j];
    }
  }

  lemma TailByPosition(s: seq<Item>, start: nat)
    requires start <= |s|
    ensures SelfContainedFrom(s, start) <==> Unmatched(s[start..], {}) == []
  {
    var t := s[start..];
    ValidMeansCalledBefore(t);
    forall i: nat | start <= i < |s| && s[i].ToolResult?
      ensures t[i - start] == s[i]
      ensures CalledSince(s, start, i) <==> CalledBefore(t, i - start)
    {
      CalledSinceInTail(s, start, i);
    }
    if SelfContainedFrom(s, start) {
      forall k: nat | k < |t| && t[k].ToolResult? ensures CalledBefore(t, k) {
        assert t[k] == s[start + k];
        assert CalledSince(s, start, start + k);
      }
    }
  }

  lemma VerdictBetweenInert(before: seq<Item>, recent: seq<Item>, after: seq<Item>)
    requires Inert(before) && Inert(after)
    ensures Unmatched(before + recent + after, {}) == Unmatched(recent, {})
  {
    UnmatchedBeforeInert(before + recent, after, {});
    UnmatchedAroundInert(before, recent, {});
  }

  lemma FrameIsInert(input: Input, summaryText: string)
    requires input.systemMessage.System?
    ensures Inert(Preamble(input)) && Inert(Closing(summaryText, input.systemReminder))
  {}

  lemma CompactedVerdict(input: Input, summaryText: string)
    requires input.systemMessage.System?
    ensures Unmatched(Compacted(input, summaryText), {}) == Unmatched(input.recentMessages, {})
  {
    FrameIsInert(input, summaryText);
    VerdictBetweenInert(Preamble(input), input.recentMessages, Closing(summaryText, input.systemReminder));
  }

  /** The compacted history of any conversation validates exactly when every
      result after its last real user turn answers a call made after that turn
      and before the result, whatever synthetic items lie in between. */
  lemma CompactedHistoryValidates(conversation: seq<Item>, input: Input, summaryText: string)
    requires input.systemMessage.System?
    ensures Unmatched(Compacted(InputFor(conversation, input), summaryText), {}) == [] <==>
            SelfContainedFrom(conversation, TailStart(conversation))
  {
    var start := TailStart(conversation);
    CompactedVerdict(InputFor(conversation, input), summaryText);
    CarryingKeepsTheVerdict(conversation[start..], {});
    TailByPosition(conversation, start);
  }
}
