/** Optional values, as the source's `Option`. */
module Wrappers {
  datatype Option<+T> = None | Some(value: T)
}

/** Sequence algebra that keeps larger proofs free of extensionality. */
module Sequences {
  /** Equality by name: a predicate stated for every `a` with `Is(a, b)` stays
      folded until a lemma names `b`. */
  ghost predicate Is<T(!new)>(a: seq<T>, b: seq<T>) {
    a == b
  }

  lemma Assoc<T>(a: seq<T>, b: seq<T>, c: seq<T>)
    ensures (a + b) + c == a + (b + c)
  {}

  lemma Split<T>(s: seq<T>, k: nat)
    requires k <= |s|
    ensures s == s[..k] + s[k..]
  {}

  lemma Front<T>(s: seq<T>)
    requires s != []
    ensures s == [s[0]] + s[1..]
  {}

  lemma Tail<T>(x: T, s: seq<T>)
    ensures ([x] + s)[0] == x && ([x] + s)[1..] == s
  {}

  lemma Unsplit<T>(a: seq<T>, b: seq<T>)
    ensures (a + b)[..|a|] == a && (a + b)[|a|..] == b
  {}

  lemma Grow<T>(s: seq<T>, i: nat)
    requires i < |s|
    ensures s[..i + 1] == s[..i] + [s[i]]
    ensures s[i..] == [s[i]] + s[i + 1..]
  {}

  lemma ConcatLast<T>(a: seq<T>, b: seq<T>)
    requires b != []
    ensures (a + b)[..|a + b| - 1] == a + b[..|b| - 1]
    ensures (a + b)[|a + b| - 1] == b[|b| - 1]
  {}

  lemma SnocLast<T>(a: seq<T>, x: T)
    ensures (a + [x])[..|a|] == a && (a + [x])[|a|] == x
  {}

  lemma EmptyRight<T>(a: seq<T>)
    ensures a + [] == a && [] + a == a
  {}
}

/** Conversation items and the tool-pairing vocabulary shared by the repair,
    compaction and budget modules. */
module Conversation {
  import opened Sequences
  import opened Wrappers

  datatype ToolCall = ToolCall(id: string, name: string, arguments: string)

  datatype ContentPart = Text(text: string) | Image(url: string)

  datatype SyntheticReason = CompactionMeta | SystemReminder | ProjectInstructions | AutoContinue | Unknown

  datatype Item =
    | System(content: string)
    | User(parts: seq<ContentPart>, synthetic: Option<SyntheticReason>)
    | Assistant(content: string, calls: seq<ToolCall>)
    | ToolResult(callId: string, content: string, images: seq<string>)
    | BackendToolCall(summary: string)
    | Reasoning(text: string, encrypted: string)

  /** Ids declared by a list of tool calls. */
  function CallIds(calls: seq<ToolCall>): set<string> {
    set c | c in calls :: c.id
  }

  /** Ids an item declares; empty for everything that is not an assistant. */
  function Declares(item: Item): set<string> {
    if item.Assistant? then CallIds(item.calls) else {}
  }

  /** Ids answered by the tool results among `items`. */
  function ResultIds(items: seq<Item>): set<string> {
    set x | x in items && x.ToolResult? :: x.callId
  }

  ghost predicate AllResults(items: seq<Item>) {
    forall k :: 0 <= k < |items| ==> items[k].ToolResult?
  }

  /** Number of leading tool results. */
  function RunLen(s: seq<Item>): (n: nat)
    ensures n <= |s|
    ensures forall k :: 0 <= k < n ==> s[k].ToolResult?
    ensures n < |s| ==> !s[n].ToolResult?
  {
    if s == [] || !s[0].ToolResult? then 0 else 1 + RunLen(s[1..])
  }

  /** `s` does not begin with a tool result, so it splits into whole turns. */
  predicate StartsTurn(s: seq<Item>) {
    s == [] || !s[0].ToolResult?
  }

  /** Position `i` lies in the contiguous run of tool results right after `j`. */
  ghost predicate InRun(s: seq<Item>, j: nat, i: nat) {
    j < i < |s| && forall k :: j < k <= i ==> s[k].ToolResult?
  }

  /** The item at `j` declares the id answered at `i` and `i` is in its run. */
  ghost predicate Owns(s: seq<Item>, j: nat, i: nat) {
    InRun(s, j, i) && s[i].callId in Declares(s[j])
  }

  ghost predicate Owned(s: seq<Item>, i: nat) {
    exists j: nat :: Owns(s, j, i)
  }

  /** The provider's pairing rule, stated on positions: every tool result is in
      the run of the assistant that declares it, and every declared call has
      exactly one result in its run. */
  ghost predicate ExactlyPaired(s: seq<Item>) {
    && (forall i: nat :: i < |s| && s[i].ToolResult? ==> Owned(s, i))
    && (forall j: nat, id: string :: j < |s| && id in Declares(s[j]) ==> AnsweredOnce(s, j, id))
  }

  ghost predicate Answers(s: seq<Item>, j: nat, i: nat, id: string) {
    InRun(s, j, i) && s[i].callId == id
  }

  ghost predicate AnsweredOnce(s: seq<Item>, j: nat, id: string) {
    && (exists i: nat :: Answers(s, j, i, id))
    && (forall i: nat, k: nat :: Answers(s, j, i, id) && Answers(s, j, k, id) ==> i == k)
  }

  lemma {:induction false} RunLenOfRun(run: seq<Item>, rest: seq<Item>)
    requires AllResults(run)
    requires StartsTurn(rest)
    ensures RunLen(run + rest) == |run|
  {
    var s := run + rest;
    assert forall k :: 0 <= k < |run| ==> s[k] == run[k];
    assert rest != [] ==> s[|run|] == rest[0];
  }

  /** The run of tool results after the first item. */
  function FirstRun(s: seq<Item>): (run: seq<Item>)
    requires s != []
    ensures AllResults(run)
  {
    s[1..][..RunLen(s[1..])]
  }

  function AfterTurn(s: seq<Item>): (rest: seq<Item>)
    requires s != []
    ensures StartsTurn(rest) && |rest| < |s|
  {
    s[1..][RunLen(s[1..])..]
  }

  lemma TurnSplit(s: seq<Item>)
    requires s != []
    ensures s == [s[0]] + FirstRun(s) + AfterTurn(s)
  {
    Front(s);
    Split(s[1..], RunLen(s[1..]));
    Assoc([s[0]], FirstRun(s), AfterTurn(s));
  }

  /** Items that are not tool results, in order. */
  function NonResults(s: seq<Item>): seq<Item> {
    if s == [] then [] else (if s[0].ToolResult? then [] else [s[0]]) + NonResults(s[1..])
  }

  lemma {:induction false} NonResultsConcat(a: seq<Item>, b: seq<Item>)
    ensures NonResults(a + b) == NonResults(a) + NonResults(b)
  {
    if a == [] {
      assert a + b == b;
    } else {
      assert (a + b)[1..] == a[1..] + b;
      NonResultsConcat(a[1..], b);
    }
  }

  lemma {:induction false} NonResultsOfRun(run: seq<Item>)
    requires AllResults(run)
    ensures NonResults(run) == []
  {
    if run != [] {
      NonResultsOfRun(run[1..]);
    }
  }
}
