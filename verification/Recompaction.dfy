/** Compacting a compacted history. */
module Recompaction {
  import opened Wrappers
  import opened Sequences
  import opened Strings
  import opened Conversation
  import opened Stripping
  import opened UserQuery
  import opened Compaction

  // ------------------------------------------------------ the query

  lemma StrippedIsShorter(text: string)
    ensures |StripSystemTags(text)| <= |text|
  {
    StripKeepsLengthIff(text, SystemTags(), 11);
    TrimIsShorter(StripTags(text, SystemTags(), 11));
  }

  lemma TrimIsShorter(s: string)
    ensures |Trim(s)| <= |s|
  {}

  lemma WholeReturnsIff(text: string, q: string)
    requires q == StripSystemTags(text)
    ensures StripSystemTags(Trim(q)) == q <==> NoBlocks(q, SystemTags(), 11)
  {
    TrimTwice(StripTags(text, SystemTags(), 11));
    StrippedAgainIff(text);
  }

  lemma CutIsLost(q: string, end: nat)
    requires end < |q|
    ensures StripSystemTags(Trim(q[..end])) != q
  {
    TrimIsShorter(q[..end]);
    StrippedIsShorter(Trim(q[..end]));
  }

  /** A query that was extracted once comes back from its wrapping as it was exactly
      when it holds no closing tag and no injected block. */
  lemma QueryReturnsIff(text: string, q: string)
    requires q == StripSystemTags(text)
    ensures ExtractUserQuery(WrapUserQuery(q)) == q <==>
            Find(q, CloseQuery()).None? && NoBlocks(q, SystemTags(), 11)
  {
    ExtractWrapped(q);
    match Find(q, CloseQuery()) {
      case None => WholeReturnsIff(text, q);
      case Some(end) => CutIsLost(q, end);
    }
  }

  // ------------------------------------------------------ the boundary

  /** No item opens a real user turn: it is not the user's, or it is marked. */
  ghost predicate Quiet(s: seq<Item>) {
    forall k :: 0 <= k < |s| ==> !s[k].User? || s[k].synthetic.Some?
  }

  lemma {:induction false} QuietAfter(a: seq<Item>, b: seq<Item>)
    requires Quiet(b)
    ensures TailStart(a + b) == TailStart(a)
    decreases |b|
  {
    if b == [] {
      EmptyRight(a);
    } else {
      ConcatLast(a, b);
      assert !IsRealUserTurn(b[|b| - 1]);
      QuietAfter(a, b[..|b| - 1]);
    }
  }

  lemma QuietAlone(s: seq<Item>)
    requires Quiet(s)
    ensures TailStart(s) == 0
  {
    EmptyRight(s);
    QuietAfter([], s);
  }

  lemma TailStartAt(a: seq<Item>, item: Item, b: seq<Item>)
    requires Quiet(a) && Quiet(b)
    ensures TailStart((a + [item]) + b) == if IsRealUserTurn(item) then |a| + 1 else 0
  {
    QuietAfter(a + [item], b);
    SnocLast(a, item);
    QuietAlone(a);
  }

  // ------------------------------------------------------ what is carried

  lemma {:induction false} CarriedConcat(a: seq<Item>, b: seq<Item>)
    ensures Carried(a + b) == Carried(a) + Carried(b)
  {
    if a == [] {
      EmptyRight(b);
    } else {
      assert (a + b)[1..] == a[1..] + b;
      CarriedConcat(a[1..], b);
    }
  }

  lemma {:induction false} CarriedTwice(s: seq<Item>)
    ensures Carried(Carried(s)) == Carried(s) && Quiet(Carried(s))
  {
    if s != [] {
      CarriedTwice(s[1..]);
      if s[0].Assistant? {
        Tail(s[0], Carried(s[1..]));
      } else if s[0].ToolResult? {
        Tail(ToolResult(s[0].callId, OmittedContent(), []), Carried(s[1..]));
      } else {
        EmptyRight(Carried(s[1..]));
      }
    }
  }

  lemma {:induction false} NothingCarried(s: seq<Item>)
    requires forall k :: 0 <= k < |s| ==> s[k].System? || s[k].User?
    ensures Carried(s) == []
  {
    if s != [] {
      NothingCarried(s[1..]);
    }
  }

  // ------------------------------------------------------ a compacted history

  /** The frame before the query. */
  function Opening(input: Input): seq<Item> {
    [input.systemMessage, UserMeta(input.userMessagePrefix)]
    + Optional(input.agentsMdReminder, Some(ProjectInstructions))
  }

  function QueryItem(query: string): Item {
    User([Text(WrapUserQuery(query))], None)
  }

  lemma OpeningIsQuiet(input: Input)
    requires input.systemMessage.System?
    ensures Quiet(Opening(input)) && Carried(Opening(input)) == []
  {
    NothingCarried(Opening(input));
  }

  lemma ClosingIsQuiet(text: string, reminder: Option<string>)
    ensures Quiet(Closing(text, reminder)) && Carried(Closing(text, reminder)) == []
  {
    NothingCarried(Closing(text, reminder));
  }

  lemma ParsedQuery(query: string)
    ensures JoinedText(QueryItem(query).parts) == WrapUserQuery(query)
  {
    assert [Text(WrapUserQuery(query))][1..] == [];
    assert TextsOf([]) == [];
  }

  lemma QueryIsReal(query: string)
    ensures IsRealUserTurn(QueryItem(query)) <==>
            !IsSyntheticExtractedQuery(ExtractUserQuery(WrapUserQuery(query)))
  {
    ParsedQuery(query);
  }

  lemma QuietJoin(a: seq<Item>, b: seq<Item>)
    requires Quiet(a) && Quiet(b)
    ensures Quiet(a + b)
  {}

  /** What is carried over from a compacted history: the boundary is after the query
      or at the start, and what lies between them carries nothing. */
  lemma CarriedFrom(opening: seq<Item>, query: seq<Item>, recent: seq<Item>, closing: seq<Item>, start: nat)
    requires Carried(opening) == [] && Carried(query) == [] && Carried(recent) == recent && Carried(closing) == []
    requires start == 0 || start == |opening + query|
    ensures Carried((((opening + query) + recent) + closing)[start..]) == recent
  {
    var front, rest := opening + query, recent + closing;
    Assoc(front, recent, closing);
    Unsplit(front, rest);
    CarriedConcat(opening, query);
    CarriedConcat(front, rest);
    CarriedConcat(recent, closing);
    EmptyRight(recent);
    assert (front + rest)[0..] == front + rest;
  }

  /** The boundary of a compacted history, and its query. */
  lemma Boundary(opening: seq<Item>, query: Option<string>, rest: seq<Item>)
    requires Quiet(opening) && Quiet(rest)
    ensures var c := (opening + Optional(Wrapped(query), None)) + rest;
            && (TailStart(c) == 0 || TailStart(c) == |opening + Optional(Wrapped(query), None)|)
            && LastRealUserQuery(c) == Reread(query)
  {
    match query {
      case None =>
        EmptyRight(opening);
        QuietJoin(opening, rest);
        QuietAlone(opening + rest);
      case Some(q) =>
        TailStartAt(opening, QueryItem(q), rest);
        QueryIsReal(q);
        ParsedQuery(q);
        assert ((opening + [QueryItem(q)]) + rest)[|opening|] == QueryItem(q);
    }
  }

  /** What a compacted history yields for the query it was built with. */
  function Reread(query: Option<string>): Option<string> {
    match query
    case None => None
    case Some(q) =>
      if IsSyntheticExtractedQuery(ExtractUserQuery(WrapUserQuery(q))) then None
      else Some(ExtractUserQuery(WrapUserQuery(q)))
  }

  lemma CompactedParts(input: Input, text: string)
    ensures Compacted(input, text) ==
            ((Opening(input) + Optional(Wrapped(input.lastUserQuery), None)) + input.recentMessages)
            + Closing(text, input.systemReminder)
  {}

  /** A second compaction carries what the first one carried. */
  lemma RecompactionCarries(conversation: seq<Item>, input: Input, text: string)
    requires input.systemMessage.System?
    ensures var c := Compacted(InputFor(conversation, input), text);
            && MessagesSinceLastRealUser(c) == MessagesSinceLastRealUser(conversation)
            && LastRealUserQuery(c) == Reread(LastRealUserQuery(conversation))
  {
    var first := InputFor(conversation, input);
    var opening, query, recent := Opening(first), Optional(Wrapped(first.lastUserQuery), None), first.recentMessages;
    var closing := Closing(text, first.systemReminder);
    CompactedParts(first, text);
    OpeningIsQuiet(first);
    ClosingIsQuiet(text, first.systemReminder);
    CarriedTwice(conversation[TailStart(conversation)..]);
    QuietJoin(recent, closing);
    Assoc(opening + query, recent, closing);
    Boundary(opening, first.lastUserQuery, recent + closing);
    NothingCarried(query);
    CarriedFrom(opening, query, recent, closing, TailStart(Compacted(first, text)));
  }

  // ------------------------------------------------------ main results

  /** A caller could check this of the query that goes into a compacted history. */
  ghost predicate Returns(query: string) {
    && !IsSyntheticExtractedQuery(query)
    && Find(query, CloseQuery()).None? && NoBlocks(query, SystemTags(), 11)
  }

  lemma RereadIff(text: string, q: string)
    requires q == StripSystemTags(text)
    ensures Reread(Some(q)) == Some(q) <==> Returns(q)
  {
    QueryReturnsIff(text, q);
  }

  lemma QueryIsStripped(conversation: seq<Item>) returns (text: string)
    requires LastRealUserQuery(conversation).Some?
    ensures LastRealUserQuery(conversation).value == StripSystemTags(text)
  {
    text := QueryText(JoinedText(conversation[TailStart(conversation) - 1].parts));
  }

  lemma QueryRereadIff(conversation: seq<Item>)
    ensures var query := LastRealUserQuery(conversation);
            Reread(query) == query <==> query.None? || Returns(query.value)
  {
    var query := LastRealUserQuery(conversation);
    if query.Some? {
      var text := QueryIsStripped(conversation);
      RereadIff(text, query.value);
    }
  }

  /** The query of a compacted history is the one it was built with exactly when it
      is not one of the synthetic texts, an empty one among them, and holds no
      closing tag and no injected block. */
  lemma QuerySurvivesIff(conversation: seq<Item>, input: Input, text: string)
    requires input.systemMessage.System?
    ensures var query := LastRealUserQuery(conversation);
            LastRealUserQuery(Compacted(InputFor(conversation, input), text)) == query <==>
            query.None? || Returns(query.value)
  {
    RecompactionCarries(conversation, input, text);
    QueryRereadIff(conversation);
  }

  lemma WrapIsInjective(a: string, b: string)
    requires WrapUserQuery(a) == WrapUserQuery(b)
    ensures a == b
  {
    assert WrapUserQuery(a)[|OpenQuery()| + 1..|OpenQuery()| + 1 + |a|] == a;
    assert WrapUserQuery(b)[|OpenQuery()| + 1..|OpenQuery()| + 1 + |b|] == b;
  }

  lemma QueryAt(input: Input, text: string)
    requires input.lastUserQuery.Some?
    ensures |Opening(input)| < |Compacted(input, text)|
    ensures Compacted(input, text)[|Opening(input)|] == QueryItem(input.lastUserQuery.value)
  {
    CompactedParts(input, text);
  }

  /** Histories built in the same frame differ when their queries do. */
  lemma FrameKeepsQuery(a: Input, b: Input, text: string)
    requires b == a.(lastUserQuery := b.lastUserQuery)
    ensures Compacted(a, text) == Compacted(b, text) <==> a.lastUserQuery == b.lastUserQuery
  {
    CompactedParts(a, text);
    CompactedParts(b, text);
    if Compacted(a, text) == Compacted(b, text) && a.lastUserQuery.Some? && b.lastUserQuery.Some? {
      QueryAt(a, text);
      QueryAt(b, text);
      WrapIsInjective(a.lastUserQuery.value, b.lastUserQuery.value);
    }
  }

  /** Compacting a compacted history gives what compacting the conversation itself
      gives, in any frame and for any summary, exactly under that condition. */
  lemma RecompactionIff(conversation: seq<Item>, input: Input, text: string, next: Input, nextText: string)
    requires input.systemMessage.System?
    ensures var c, query := Compacted(InputFor(conversation, input), text), LastRealUserQuery(conversation);
            Compacted(InputFor(c, next), nextText) == Compacted(InputFor(conversation, next), nextText) <==>
            query.None? || Returns(query.value)
  {
    var c := Compacted(InputFor(conversation, input), text);
    RecompactionCarries(conversation, input, text);
    QuerySurvivesIff(conversation, input, text);
    FrameKeepsQuery(InputFor(c, next), InputFor(conversation, next), nextText);
  }

  function ImagePrompt(): Item {
    User([Image("screenshot")], None)
  }

  /** A prompt of an image alone is a real turn, but its empty query is not one when
      it is put into the compacted history: the turn is lost. */
  lemma ImagePromptIsLost(input: Input, text: string)
    requires input.systemMessage.System?
    ensures LastRealUserQuery([ImagePrompt()]) == Some("")
    ensures LastRealUserQuery(Compacted(InputFor([ImagePrompt()], input), text)) == None
  {
    ImageTurn(ImagePrompt());
    OneTurn(ImagePrompt());
    EmptyIsLost();
    RecompactionCarries([ImagePrompt()], input, text);
  }

  lemma OneTurn(item: Item)
    requires IsRealUserTurn(item)
    ensures LastRealUserQuery([item]) == Some(ExtractUserQuery(JoinedText(item.parts)))
  {
    assert TailStart([item]) == 1;
  }

  lemma EmptyIsLost()
    ensures Reread(Some("")) == None
  {
    ExtractWrapped("");
    TrimIsShorter(UpToClose(""));
    StrippedIsShorter(Trim(UpToClose("")));
  }

  lemma ImageTurn(item: Item)
    requires item == User([Image("screenshot")], None)
    ensures IsRealUserTurn(item) && ExtractUserQuery(JoinedText(item.parts)) == ""
  {
    assert item.parts[0].Image?;
    assert item.parts[1..] == [];
    assert TextsOf([]) == [];
    StrippedIsShorter("");
  }
}
