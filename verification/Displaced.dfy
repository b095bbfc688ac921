/** `strip_displaced_tool_results` as the single scan the program makes, its
    agreement with `StripPass`, and what it keeps stated on positions. */
module Displaced {
  import opened Conversation
  import opened Repair

  /** Ids a result may answer after the scan has passed `item`. */
  function NextIds(item: Item, ids: set<string>): set<string> {
    if item.ToolResult? then ids else Declares(item)
  }

  predicate Keeps(item: Item, ids: set<string>) {
    item.ToolResult? ==> item.callId in ids
  }

  /** The items the scan keeps, starting with `ids` open. */
  function Kept(s: seq<Item>, ids: set<string>): seq<Item> {
    if s == [] then []
    else (if Keeps(s[0], ids) then [s[0]] else []) + Kept(s[1..], NextIds(s[0], ids))
  }

  /** The ids of the results the scan drops, in order. */
  function DroppedIds(s: seq<Item>, ids: set<string>): seq<string> {
    if s == [] then []
    else (if Keeps(s[0], ids) then [] else [s[0].callId]) + DroppedIds(s[1..], NextIds(s[0], ids))
  }

  lemma {:induction false} KeptCount(s: seq<Item>, ids: set<string>)
    ensures |s| == |Kept(s, ids)| + |DroppedIds(s, ids)|
  {
    if s != [] {
      KeptCount(s[1..], NextIds(s[0], ids));
    }
  }

  lemma {:induction false} KeptOverRun(run: seq<Item>, rest: seq<Item>, ids: set<string>)
    requires AllResults(run)
    ensures Kept(run + rest, ids) == KeepIds(run, ids) + Kept(rest, ids)
  {
    if run == [] {
      assert run + rest == rest;
    } else {
      assert (run + rest)[1..] == run[1..] + rest;
      KeptOverRun(run[1..], rest, ids);
    }
  }

  lemma KeptTurn(head: Item, run: seq<Item>, rest: seq<Item>, ids: set<string>)
    requires !head.ToolResult? && AllResults(run)
    ensures Kept([head] + run + rest, ids) == [head] + KeepIds(run, Declares(head)) + Kept(rest, Declares(head))
  {
    var s := [head] + run + rest;
    assert s[1..] == run + rest;
    KeptOverRun(run, rest, Declares(head));
  }

  lemma {:induction false} KeptTurns(s: seq<Item>, ids: set<string>)
    requires StartsTurn(s)
    ensures Kept(s, ids) == ApplyTurns(StripPass, s)
    decreases |s|
  {
    if s != [] {
      var head, run, rest := s[0], FirstRun(s), AfterTurn(s);
      TurnSplit(s);
      KeptTurn(head, run, rest, ids);
      KeptTurns(rest, Declares(head));
      ApplyTurnsCons(StripPass, head, run, rest);
    }
  }

  lemma {:induction false} KeepNone(run: seq<Item>)
    requires AllResults(run)
    ensures KeepIds(run, {}) == []
  {
    if run != [] {
      KeepNone(run[1..]);
    }
  }

  /** The one-scan form and the run-by-run form of the strip pass agree. */
  lemma ScanIsStripPass(s: seq<Item>)
    ensures Kept(s, {}) == Apply(StripPass, s)
  {
    var n := RunLen(s);
    assert s == s[..n] + s[n..];
    KeptOverRun(s[..n], s[n..], {});
    KeepNone(s[..n]);
    KeptTurns(s[n..], {});
  }

  // ------------------------------------------------------------ by position

  /** Ids open before position `i`. */
  function OpenIds(s: seq<Item>, i: nat): set<string>
    requires i <= |s|
  {
    if i == 0 then {} else NextIds(s[i - 1], OpenIds(s, i - 1))
  }

  lemma {:induction false} OpenIdsByPosition(s: seq<Item>, i: nat, id: string)
    requires i <= |s|
    ensures id in OpenIds(s, i) <==> exists j: nat :: OpensAt(s, j, i, id)
  {
    if i > 0 {
      var m := i - 1;
      OpenIdsByPosition(s, m, id);
      if s[i - 1].ToolResult? {
        if j: nat :| OpensAt(s, j, m, id) {
          assert OpensAt(s, j, i, id);
        }
        if j: nat :| OpensAt(s, j, i, id) {
          assert j != i - 1;
          assert OpensAt(s, j, m, id);
        }
      } else {
        assert id in Declares(s[i - 1]) ==> OpensAt(s, i - 1, i, id);
        assert forall j: nat :: OpensAt(s, j, i, id) ==> j == i - 1;
      }
    }
  }

  ghost predicate OpensAt(s: seq<Item>, j: nat, i: nat, id: string)
    requires i <= |s|
  {
    j < i && id in Declares(s[j]) && forall k :: j < k < i ==> s[k].ToolResult?
  }

  /** A result is kept exactly when it sits in its owner's run. */
  lemma KeptIffOwned(s: seq<Item>, i: nat)
    requires i < |s| && s[i].ToolResult?
    ensures Keeps(s[i], OpenIds(s, i)) <==> Owned(s, i)
  {
    var id := s[i].callId;
    OpenIdsByPosition(s, i, id);
    forall j: nat ensures OpensAt(s, j, i, id) <==> Owns(s, j, i) {}
  }

  /** The items from `i` on that are not displaced tool results. */
  ghost function OwnedItems(s: seq<Item>, i: nat): seq<Item>
    requires i <= |s|
    decreases |s| - i
  {
    if i == |s| then []
    else (if s[i].ToolResult? && !Owned(s, i) then [] else [s[i]]) + OwnedItems(s, i + 1)
  }

  /** One step of the scan. */
  lemma KeptStep(s: seq<Item>, k: nat, ids: set<string>)
    requires k < |s|
    ensures Kept(s[k..], ids) == (if Keeps(s[k], ids) then [s[k]] else []) + Kept(s[k + 1..], NextIds(s[k], ids))
    ensures DroppedIds(s[k..], ids)
         == (if Keeps(s[k], ids) then [] else [s[k].callId]) + DroppedIds(s[k + 1..], NextIds(s[k], ids))
  {
    assert s[k..][1..] == s[k + 1..];
  }

  lemma {:induction false} KeptFrom(s: seq<Item>, i: nat)
    requires i <= |s|
    ensures Kept(s[i..], OpenIds(s, i)) == OwnedItems(s, i)
    decreases |s| - i
  {
    if i < |s| {
      assert s[i..][1..] == s[i + 1..];
      KeptFrom(s, i + 1);
      if s[i].ToolResult? {
        KeptIffOwned(s, i);
      }
    }
  }

  /** Stripping keeps every item except the tool results outside the run of
      the assistant that declares them, in the original order. */
  lemma StripKeepsExactlyOwned(s: seq<Item>)
    ensures Apply(StripPass, s) == OwnedItems(s, 0)
  {
    ScanIsStripPass(s);
    KeptFrom(s, 0);
    assert s[0..] == s;
  }
}
