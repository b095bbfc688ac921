/** The weaker pairing rule, "a matching call anywhere before":
    `validate_compacted_history` and `sanitize_compacted_history`, and how they
    relate to the contiguous-run rule of `Repair`. */
module Sanitize {
  import opened Sequences
  import opened Conversation
  import opened Repair
  import opened Displaced

  predicate Matches(item: Item, seen: set<string>) {
    item.ToolResult? ==> item.callId in seen
  }

  /** Ids of results without a matching call before them, in order. */
  function Unmatched(s: seq<Item>, seen: set<string>): seq<string> {
    if s == [] then []
    else (if Matches(s[0], seen) then [] else [s[0].callId]) + Unmatched(s[1..], seen + Declares(s[0]))
  }

  /** The items without those results. */
  function Matched(s: seq<Item>, seen: set<string>): seq<Item> {
    if s == [] then []
    else (if Matches(s[0], seen) then [s[0]] else []) + Matched(s[1..], seen + Declares(s[0]))
  }

  lemma MatchStep(s: seq<Item>, k: nat, seen: set<string>)
    requires k < |s|
    ensures Unmatched(s[k..], seen)
         == (if Matches(s[k], seen) then [] else [s[k].callId]) + Unmatched(s[k + 1..], seen + Declares(s[k]))
    ensures Matched(s[k..], seen)
         == (if Matches(s[k], seen) then [s[k]] else []) + Matched(s[k + 1..], seen + Declares(s[k]))
    ensures !s[k].Assistant? ==> seen + Declares(s[k]) == seen
  {
    assert s[k..][1..] == s[k + 1..];
  }

  /** One turn of the validating loop. */
  lemma ValidateStep(s: seq<Item>, k: nat, seen: set<string>, reported: seq<string>)
    requires k < |s|
    ensures var next := Unmatched(s[k + 1..], seen + Declares(s[k]));
            reported + Unmatched(s[k..], seen)
            == if Matches(s[k], seen) then reported + next else (reported + [s[k].callId]) + next
    ensures !s[k].Assistant? ==> seen + Declares(s[k]) == seen
  {
    MatchStep(s, k, seen);
    if !Matches(s[k], seen) {
      Assoc(reported, [s[k].callId], Unmatched(s[k + 1..], seen + Declares(s[k])));
    }
  }

  /** The read-only scan. */
  method ValidateCompactedHistory(items: seq<Item>) returns (invalidIds: seq<string>)
    ensures invalidIds == Unmatched(items, {})
  {
    var seenIds: set<string> := {};
    invalidIds := [];
    assert items[0..] == items;
    for k := 0 to |items|
      invariant invalidIds + Unmatched(items[k..], seenIds) == Unmatched(items, {})
    {
      ValidateStep(items, k, seenIds, invalidIds);
      if items[k].Assistant? {
        seenIds := seenIds + CallIds(items[k].calls);
      } else if items[k].ToolResult? && items[k].callId !in seenIds {
        invalidIds := invalidIds + [items[k].callId];
      }
    }
    assert items[|items|..] == [];
  }

  /** One turn of the filtering loop. */
  lemma FilterStep(s: seq<Item>, k: nat, seen: set<string>, kept: seq<Item>)
    requires k < |s|
    ensures var next := Matched(s[k + 1..], seen + Declares(s[k]));
            kept + Matched(s[k..], seen) == if Matches(s[k], seen) then (kept + [s[k]]) + next else kept + next
  {
    MatchStep(s, k, seen);
    if Matches(s[k], seen) {
      Assoc(kept, [s[k]], Matched(s[k + 1..], seen + Declares(s[k])));
    }
  }

  /** The filtering scan. */
  method SanitizeCompactedHistory(items: seq<Item>) returns (sanitized: seq<Item>, strippedIds: seq<string>)
    ensures sanitized == Matched(items, {})
    ensures strippedIds == Unmatched(items, {})
  {
    var seenIds: set<string> := {};
    sanitized, strippedIds := [], [];
    assert items[0..] == items;
    for k := 0 to |items|
      invariant sanitized + Matched(items[k..], seenIds) == Matched(items, {})
      invariant strippedIds + Unmatched(items[k..], seenIds) == Unmatched(items, {})
    {
      var item := items[k];
      ValidateStep(items, k, seenIds, strippedIds);
      FilterStep(items, k, seenIds, sanitized);
      if item.ToolResult? && item.callId !in seenIds {
        strippedIds := strippedIds + [item.callId];
      } else {
        sanitized := sanitized + [item];
        if item.Assistant? {
          seenIds := seenIds + CallIds(item.calls);
        }
      }
    }
  }

  // ------------------------------------------------------ by position

  /** Some item before `i` declares the id answered at `i`. */
  ghost predicate CalledBefore(s: seq<Item>, i: nat)
    requires i < |s| && s[i].ToolResult?
  {
    exists j: nat :: j < i && s[i].callId in Declares(s[j])
  }

  /** Ids declared before position `i`. */
  function SeenIds(s: seq<Item>, i: nat): set<string>
    requires i <= |s|
  {
    if i == 0 then {} else SeenIds(s, i - 1) + Declares(s[i - 1])
  }

  lemma {:induction false} SeenByPosition(s: seq<Item>, i: nat, id: string)
    requires i <= |s|
    ensures id in SeenIds(s, i) <==> exists j: nat :: j < i && id in Declares(s[j])
  {
    if i > 0 {
      SeenByPosition(s, i - 1, id);
    }
  }

  /** Positions from `i` on whose result has no call before it. */
  ghost function UncalledIds(s: seq<Item>, i: nat): seq<string>
    requires i <= |s|
    decreases |s| - i
  {
    if i == |s| then []
    else (if s[i].ToolResult? && !CalledBefore(s, i) then [s[i].callId] else []) + UncalledIds(s, i + 1)
  }

  ghost function CalledItems(s: seq<Item>, i: nat): seq<Item>
    requires i <= |s|
    decreases |s| - i
  {
    if i == |s| then []
    else (if s[i].ToolResult? && !CalledBefore(s, i) then [] else [s[i]]) + CalledItems(s, i + 1)
  }

  lemma {:induction false} ScanByPosition(s: seq<Item>, i: nat)
    requires i <= |s|
    ensures Unmatched(s[i..], SeenIds(s, i)) == UncalledIds(s, i)
    ensures Matched(s[i..], SeenIds(s, i)) == CalledItems(s, i)
    decreases |s| - i
  {
    if i < |s| {
      MatchStep(s, i, SeenIds(s, i));
      ScanByPosition(s, i + 1);
      if s[i].ToolResult? {
        SeenByPosition(s, i, s[i].callId);
      }
    }
  }

  /** Validation reports, in order, exactly the results that no earlier call
      declares; sanitizing drops exactly those. */
  lemma ScansMeetTheRule(s: seq<Item>)
    ensures Unmatched(s, {}) == UncalledIds(s, 0)
    ensures Matched(s, {}) == CalledItems(s, 0)
  {
    ScanByPosition(s, 0);
    assert s[0..] == s;
  }

  lemma {:induction false} UncalledEmpty(s: seq<Item>, i: nat)
    requires i <= |s|
    ensures UncalledIds(s, i) == [] <==> forall k: nat :: i <= k < |s| && s[k].ToolResult? ==> CalledBefore(s, k)
    decreases |s| - i
  {
    if i < |s| {
      UncalledEmpty(s, i + 1);
    }
  }

  lemma ValidMeansCalledBefore(s: seq<Item>)
    ensures Unmatched(s, {}) == [] <==> forall k: nat :: k < |s| && s[k].ToolResult? ==> CalledBefore(s, k)
  {
    ScansMeetTheRule(s);
    UncalledEmpty(s, 0);
  }

  // ------------------------------------------------------ main results

  lemma {:induction false} SanitizedScanValidates(s: seq<Item>, seen: set<string>)
    ensures Unmatched(Matched(s, seen), seen) == []
  {
    if s != [] {
      SanitizedScanValidates(s[1..], seen + Declares(s[0]));
      var rest := Matched(s[1..], seen + Declares(s[0]));
      if Matches(s[0], seen) {
        Tail(s[0], rest);
      } else {
        assert seen + Declares(s[0]) == seen;
        assert Matched(s, seen) == rest;
      }
    }
  }

  /** A sanitized history validates. */
  lemma SanitizedValidates(s: seq<Item>)
    ensures Unmatched(Matched(s, {}), {}) == []
  {
    SanitizedScanValidates(s, {});
  }

  lemma {:induction false} SanitizeCounts(s: seq<Item>, seen: set<string>)
    ensures |s| == |Matched(s, seen)| + |Unmatched(s, seen)|
    ensures Unmatched(s, seen) == [] ==> Matched(s, seen) == s
  {
    if s != [] {
      SanitizeCounts(s[1..], seen + Declares(s[0]));
      Front(s);
    }
  }

  /** Sanitizing is the identity exactly on valid histories. */
  lemma SanitizeFixesOnlyValid(s: seq<Item>)
    ensures Matched(s, {}) == s <==> Unmatched(s, {}) == []
  {
    SanitizeCounts(s, {});
  }

  /** The contiguous-run rule is the stronger one, result by result. */
  lemma OwnedIsCalledBefore(s: seq<Item>, i: nat)
    requires i < |s| && s[i].ToolResult? && Owned(s, i)
    ensures CalledBefore(s, i)
  {
    var j: nat :| Owns(s, j, i);
  }

  lemma {:induction false} StripAfterScan(s: seq<Item>, ids: set<string>, seen: set<string>)
    requires ids <= seen
    ensures Kept(Matched(s, seen), ids) == Kept(s, ids)
    ensures Matched(Kept(s, ids), seen) == Kept(s, ids)
  {
    if s != [] {
      StripAfterScan(s[1..], NextIds(s[0], ids), seen + Declares(s[0]));
      var matched := Matched(s[1..], seen + Declares(s[0]));
      var kept := Kept(s[1..], NextIds(s[0], ids));
      Tail(s[0], matched);
      Tail(s[0], kept);
      if s[0].ToolResult? {
        assert seen + Declares(s[0]) == seen;
      }
      assert [] + matched == matched && [] + kept == kept;
    }
  }

  /** Sanitizing keeps whatever stripping keeps: stripping a sanitized history
      gives the same items as stripping the original, and sanitizing a stripped
      history removes nothing, so a stripped history always validates. */
  lemma StripIsStronger(s: seq<Item>)
    ensures Apply(StripPass, Matched(s, {})) == Apply(StripPass, s)
    ensures Matched(Apply(StripPass, s), {}) == Apply(StripPass, s)
    ensures Unmatched(Apply(StripPass, s), {}) == []
  {
    StripAfterScan(s, {}, {});
    ScanIsStripPass(s);
    ScanIsStripPass(Matched(s, {}));
    SanitizeFixesOnlyValid(Kept(s, {}));
  }

  lemma {:induction false} UnmatchedRun(run: seq<Item>, rest: seq<Item>, seen: set<string>)
    requires AllResults(run) && ResultIds(run) <= seen
    ensures Unmatched(run + rest, seen) == Unmatched(rest, seen)
  {
    if run == [] {
      assert run + rest == rest;
    } else {
      assert (run + rest)[1..] == run[1..] + rest;
      assert seen + Declares(run[0]) == seen;
      ResultIdsSplit(run);
      UnmatchedRun(run[1..], rest, seen);
    }
  }

  lemma RepairedRunIsDeclared(head: Item, run: seq<Item>, reason: Reason)
    requires !head.ToolResult? && AllResults(run)
    ensures ResultIds(NewRun(RepairPass(reason), head, run)) <= Declares(head)
  {
    if IsCaller(head) {
      RepairedCallerRun(head, run, reason);
    } else {
      KeepIdsFacts(run, Declares(head));
    }
  }

  lemma {:induction false} RepairedTurnsValidate(s: seq<Item>, reason: Reason, seen: set<string>)
    requires StartsTurn(s)
    ensures Unmatched(ApplyTurns(RepairPass(reason), s), seen) == []
    decreases |s|
  {
    if s != [] {
      var p, head, run := RepairPass(reason), s[0], FirstRun(s);
      var rest := ApplyTurns(p, AfterTurn(s));
      var newRun := NewRun(p, head, run);
      RepairedRunIsDeclared(head, run, reason);
      RepairedTurnsValidate(AfterTurn(s), reason, seen + Declares(head));
      UnmatchedRun(newRun, rest, seen + Declares(head));
      Assoc([head], newRun, rest);
      Tail(head, newRun + rest);
    }
  }

  /** A repaired history validates, whatever it was before. */
  lemma RepairedValidates(s: seq<Item>, reason: Reason)
    ensures Unmatched(RepairHistory(s, reason), {}) == []
  {
    RepairDropsLead(s, reason);
    RepairedTurnsValidate(s[RunLen(s)..], reason, {});
  }
}
