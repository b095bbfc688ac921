/** `format_compact_summary` as a whole: dropping the drafting scratchpad,
    unwrapping the summary block, and the final cleaning of `Summary`. */
module SummaryFormat {
  import opened Wrappers
  import opened Sequences
  import opened Strings
  import opened Summary

  lemma NoInnerOpen(s: string, t: string, i: nat, j: nat)
    requires TagLike(t) && MatchesAt(s, t, i) && i < j < i + |t|
    ensures s[j] != '<'
  {
    MatchIn(s, t, i);
    assert s[i + (j - i)] == t[j - i];
  }

  /** Two different tags never overlap. */
  lemma TagsApart(s: string, t: string, i: nat, u: string, j: nat)
    requires TagLike(t) && TagLike(u) && t[1] != u[1]
    requires MatchesAt(s, t, i) && MatchesAt(s, u, j) && i <= j
    ensures i + |t| <= j
  {
    MatchIn(s, t, i);
    MatchIn(s, u, j);
    assert s[j + 0] == '<' && s[i + 1] == t[1] && s[j + 1] == u[1];
    if i < j < i + |t| {
      NoInnerOpen(s, t, i, j);
    }
  }

  lemma FourTags()
    ensures TagLike(OpenSummary()) && TagLike(CloseSummary()) && TagLike(OpenAnalysis()) && TagLike(CloseAnalysis())
    ensures OpenSummary()[1] == 's' && CloseSummary()[1] == '/' && OpenAnalysis()[1] == 'a' && CloseAnalysis()[1] == '/'
  {
    TagsAreTagLike();
    assert Tags()[0] == CloseSummary() && Tags()[1] == OpenSummary();
    assert Tags()[2] == CloseAnalysis() && Tags()[3] == OpenAnalysis();
  }

  /** Nothing but white space comes between the start of the text (or of the
      summary block, once it is open) and the analysis block at `start`. */
  predicate IsLeading(s: string, start: nat)
    requires MatchesAt(s, OpenAnalysis(), start)
  {
    match Find(s, OpenSummary())
    case None => Trim(s[..start]) == []
    case Some(sp) =>
      start < sp
      || (FourTags(); TagsApart(s, OpenSummary(), sp, OpenAnalysis(), start);
          Trim(s[sp + |OpenSummary()|..start]) == [])
  }

  datatype Step = Done(text: string) | Again(text: string)

  /** One turn of the stripping loop. */
  function StripStep(s: string): (r: Step)
    ensures r.Again? ==> |r.text| < |s|
  {
    match Find(s, OpenAnalysis())
    case None => Done(s)
    case Some(start) =>
      if !IsLeading(s, start) then Done(s)
      else match FindFrom(s, CloseAnalysis(), start)
        case Some(close) => Again(s[..start] + s[close + |CloseAnalysis()|..])
        case None =>
          match FindFrom(s, OpenSummary(), start)
          case Some(dropTo) => Done(s[..start] + s[dropTo..])
          case None => Done(s[..start])
  }

  /** Drop the leading analysis blocks. */
  function StripAnalysis(s: string): string
    decreases |s|
  {
    match StripStep(s)
    case Done(text) => text
    case Again(text) => StripAnalysis(text)
  }

  predicate IsAsciiDigit(c: char) {
    '0' <= c <= '9'
  }

  predicate IsDecoration(c: char) {
    c == '#' || c == '*' || c == '-' || c == '>' || c == ' ' || c == '\t'
  }

  function TrimDecoration(s: string): (r: string)
    ensures |r| <= |s| && r == s[|s| - |r|..]
  {
    if s != [] && IsDecoration(s[0]) then TrimDecoration(s[1..]) else s
  }

  predicate NumberedLead(s: string) {
    var lead := TrimDecoration(s);
    lead != [] && IsAsciiDigit(lead[0])
  }

  /** Peel what the model drafted before the summary proper. */
  function StripScratchpad(inner: string): string {
    var s := Trim(inner);
    var peeled :=
      match RFind(s, CloseAnalysis())
      case Some(pos) => if NumberedLead(s) then s else TrimStart(s[pos + |CloseAnalysis()|..])
      case None => s;
    WithoutInnerTag(peeled)
  }

  /** The text without a summary tag that it begins with. */
  function WithoutInnerTag(s: string): string {
    if OpenSummary() <= s then TrimStart(s[|OpenSummary()|..]) else s
  }

  predicate AllDecoration(d: string) {
    forall k :: 0 <= k < |d| ==> d[k] in {'#', '*', '-', '>', ' ', '\t'}
  }

  /** Headings, emphasis, bullets and quotes before a number do not matter, and what
      counts as a number is a digit. */
  lemma {:induction false} DecorationDoesNotMatter(d: string, s: string)
    requires AllDecoration(d)
    ensures NumberedLead(d + s) <==> NumberedLead(s)
    ensures s != [] && s[0] !in {'#', '*', '-', '>', ' ', '\t'} ==> (NumberedLead(s) <==> '0' <= s[0] <= '9')
  {
    if d == [] {
      assert d + s == s;
    } else {
      assert (d + s)[1..] == d[1..] + s;
      DecorationDoesNotMatter(d[1..], s);
    }
  }

  /** Replace the summary block by its plain-text form. */
  function Unwrap(s: string): string {
    match (Find(s, OpenSummary()), RFind(s, CloseSummary()))
    case (Some(start), Some(end)) =>
      if end > start then
        FourTags();
        TagsApart(s, OpenSummary(), start, CloseSummary(), end);
        s[..start] + "Summary:\n"
        + StripScratchpad(Trim(s[start + |OpenSummary()|..end]))
        + s[end + |CloseSummary()|..]
      else s
    case _ => s
  }

  function FormatSummary(s: string): string {
    Clean(Unwrap(StripAnalysis(s)))
  }

  method FormatCompactSummary(summary: string) returns (result: string)
    ensures result == FormatSummary(summary)
  {
    result := summary;
    while true
      invariant StripAnalysis(result) == StripAnalysis(summary)
      decreases |result|
    {
      match StripStep(result) {
        case Done(text) =>
          result := FinishFormat(text);
          return;
        case Again(text) =>
          result := text;
      }
    }
  }

  method FinishFormat(stripped: string) returns (result: string)
    ensures result == Clean(Unwrap(stripped))
  {
    result := Neutralize(Unwrap(stripped));
    while Find(result, Lines(3)).Some?
      invariant Collapse(result) == Collapse(Neutralize(Unwrap(stripped)))
      decreases |result|
    {
      SqueezeShrinks(result);
      result := Squeeze(result);
    }
    result := Trim(result);
  }

  // ------------------------------------------------------ main results

  /** The cleaned seed holds none of the six control tags and no run of three
      newlines, whatever the model replied. */
  lemma FormattedIsInert(s: string)
    ensures NoTags(FormatSummary(s)) && !Contains(FormatSummary(s), Lines(3))
  {
    CleanLeavesNothingLive(Unwrap(StripAnalysis(s)));
  }

  lemma NoNamedTags(s: string)
    requires NoTags(s)
    ensures !Contains(s, OpenAnalysis()) && !Contains(s, OpenSummary())
  {
    assert !Contains(s, Tags()[3]) && !Contains(s, Tags()[1]);
  }

  /** Cleaning a cleaned seed changes nothing. */
  lemma FormatIdempotent(s: string)
    ensures FormatSummary(FormatSummary(s)) == FormatSummary(s)
  {
    var r := FormatSummary(s);
    FormattedIsInert(s);
    NoNamedTags(r);
    TrimTwice(Collapse(Neutralize(Unwrap(StripAnalysis(s)))));
    assert StripStep(r) == Done(r);
    assert Unwrap(r) == r;
    CleanFixesCleanText(r);
  }

  // ------------------------------------------------------ a well-formed reply

  /** Where the first tag is once the text before it has none. */
  lemma FirstTagAt(a: string, t: string, b: string)
    requires TagLike(t) && !Contains(a, t)
    ensures Find(a + t + b, t) == Some(|a|)
  {
    var s := a + t + b;
    assert MatchesAt(s, t, |a|);
    MatchIn(s, t, |a|);
    assert s[|a| + 0] == '<';
    forall k: nat | k < |a| ensures !MatchesAt(s, t, k) {
      if k + |t| <= |a| {
        assert s == a + (t + b);
        MatchInPrefix(a, t + b, t, k);
      } else if MatchesAt(s, t, k) {
        NoInnerOpen(s, t, k, |a|);
      }
    }
  }

  lemma LastTagAt(a: string, t: string)
    requires TagLike(t)
    ensures RFind(a + t, t) == Some(|a|)
  {
    assert MatchesAt(a + t, t, |a|);
  }

  lemma NoTagInSpace(w: string, t: string)
    requires AllSpace(w) && TagLike(t)
    ensures !Contains(w, t)
  {
    if i: nat :| MatchesAt(w, t, i) {
      MatchIn(w, t, i);
    }
  }

  /** An analysis block, white space, and a summary block. */
  function Reply(analysis: string, space: string, body: string): string {
    OpenAnalysis() + analysis + CloseAnalysis() + (space + OpenSummary() + body + CloseSummary())
  }

  /** The body leads with a numbered section, decorated (`## 1.`, `**1.**`) or not. */
  predicate StartsNumbered(body: string) {
    NumberedLead(Trim(body))
  }

  /** The body leads with text, not with a tag. */
  predicate LeadsWithText(body: string) {
    TrimStart(body) != [] && TrimStart(body)[0] != '<'
  }

  lemma TagIsNotNumbered(s: string)
    requires s == [] || s[0] == '<'
    ensures !NumberedLead(s)
  {}

  lemma NumberedLeadsWithText(body: string)
    requires StartsNumbered(body)
    ensures LeadsWithText(body)
  {
    if Trim(body) == [] || Trim(body)[0] == '<' {
      TagIsNotNumbered(Trim(body));
    } else {
      TrimKeepsStart(body);
    }
  }

  lemma NoEarlierClose(analysis: string)
    requires !Contains(analysis, CloseAnalysis())
    ensures !Contains(OpenAnalysis() + analysis, CloseAnalysis())
  {
    FourTags();
    var s, u := OpenAnalysis() + analysis, CloseAnalysis();
    if k: nat :| MatchesAt(s, u, k) {
      assert s == [] + OpenAnalysis() + analysis;
      assert MatchesAt(s, OpenAnalysis(), 0);
      TagsApart(s, OpenAnalysis(), 0, u, k);
      MatchInSuffix(OpenAnalysis(), analysis, u, k - |OpenAnalysis()|);
    }
  }

  /** The first turn of the loop drops the analysis block, whatever it says. */
  lemma FirstBlockGoes(analysis: string, rest: string)
    requires !Contains(analysis, CloseAnalysis())
    ensures StripStep(OpenAnalysis() + analysis + CloseAnalysis() + rest) == Again(rest)
  {
    FourTags();
    var s := OpenAnalysis() + analysis + CloseAnalysis() + rest;
    assert s == [] + OpenAnalysis() + (analysis + CloseAnalysis() + rest);
    FirstTagAt([], OpenAnalysis(), analysis + CloseAnalysis() + rest);
    NoEarlierClose(analysis);
    FirstTagAt(OpenAnalysis() + analysis, CloseAnalysis(), rest);
    var at := |OpenAnalysis() + analysis|;
    assert FindFrom(s, CloseAnalysis(), 0) == Some(at);
    TrimIsEmpty([]);
    assert IsLeading(s, 0);
    assert s[..0] + s[at + |CloseAnalysis()|..] == rest;
  }

  lemma VisibleStart(body: string) returns (d: nat)
    requires LeadsWithText(body)
    ensures d < |body| && body[d] != '<' && !IsSpace(body[d])
    ensures forall k :: 0 <= k < d ==> IsSpace(body[k])
  {
    d := |body| - |TrimStart(body)|;
    assert body[d] == TrimStart(body)[0];
  }

  lemma SummaryBlockAt(space: string, body: string)
    requires AllSpace(space)
    ensures Find(space + OpenSummary() + body + CloseSummary(), OpenSummary()) == Some(|space|)
  {
    FourTags();
    NoTagInSpace(space, OpenSummary());
    FirstTagAt(space, OpenSummary(), body + CloseSummary());
    Assoc(space + OpenSummary(), body, CloseSummary());
  }

  lemma AnalysisIsInside(s: string, space: string, start: nat)
    requires AllSpace(space) && space <= s && MatchesAt(s, OpenAnalysis(), start)
    ensures |space| <= start
  {
    FourTags();
    MatchIn(s, OpenAnalysis(), start);
    assert s[start + 0] == '<';
    assert forall k :: 0 <= k < |space| ==> s[k] == space[k];
  }

  lemma VisibleBefore(s: string, from: nat, body: string, start: nat)
    requires from <= start < |s| && from + |body| <= |s|
    requires forall k :: 0 <= k < |body| ==> s[from + k] == body[k]
    requires LeadsWithText(body) && s[start] == '<'
    ensures Trim(s[from..start]) != []
  {
    var d := VisibleStart(body);
    assert forall k :: from <= k < from + |body| ==> s[k] == body[k - from];
    assert from + d < start;
    TrimIsEmpty(s[from..start]);
    assert s[from..start][d] == s[from + d];
  }

  lemma LeadsAfter(s: string, sp: nat, start: nat)
    requires Find(s, OpenSummary()) == Some(sp) && MatchesAt(s, OpenAnalysis(), start) && sp <= start
    ensures sp + |OpenSummary()| <= start < |s| && s[start] == '<'
    ensures IsLeading(s, start) <==> Trim(s[sp + |OpenSummary()|..start]) == []
  {
    FourTags();
    TagsApart(s, OpenSummary(), sp, OpenAnalysis(), start);
    MatchIn(s, OpenAnalysis(), start);
    assert s[start + 0] == '<';
  }

  /** A scratchpad tag after visible text in the summary block does not lead. */
  lemma VisibleIsNotLeading(s: string, sp: nat, body: string, start: nat)
    requires Find(s, OpenSummary()) == Some(sp) && MatchesAt(s, OpenAnalysis(), start) && sp <= start
    requires LeadsWithText(body) && sp + |OpenSummary()| + |body| <= |s|
    requires forall k :: 0 <= k < |body| ==> s[sp + |OpenSummary()| + k] == body[k]
    ensures !IsLeading(s, start)
  {
    LeadsAfter(s, sp, start);
    VisibleBefore(s, sp + |OpenSummary()|, body, start);
  }

  lemma EchoIsNotLeading(space: string, body: string, start: nat)
    requires AllSpace(space) && LeadsWithText(body)
    requires MatchesAt(space + OpenSummary() + body + CloseSummary(), OpenAnalysis(), start)
    ensures !IsLeading(space + OpenSummary() + body + CloseSummary(), start)
  {
    var s := space + OpenSummary() + body + CloseSummary();
    SummaryBlockAt(space, body);
    BodyAt(space, OpenSummary(), body, CloseSummary());
    EchoInBlock(s, space, body, start);
  }

  lemma EchoInBlock(s: string, space: string, body: string, start: nat)
    requires AllSpace(space) && space <= s && Find(s, OpenSummary()) == Some(|space|)
    requires LeadsWithText(body) && |space| + |OpenSummary()| + |body| <= |s|
    requires forall k :: 0 <= k < |body| ==> s[|space| + |OpenSummary()| + k] == body[k]
    requires MatchesAt(s, OpenAnalysis(), start)
    ensures !IsLeading(s, start)
  {
    AnalysisIsInside(s, space, start);
    VisibleIsNotLeading(s, |space|, body, start);
  }

  lemma BodyAt(space: string, open: string, body: string, close: string)
    ensures var s := space + open + body + close;
            && space <= s && |space| + |open| + |body| <= |s|
            && forall k :: 0 <= k < |body| ==> s[|space| + |open| + k] == body[k]
  {}

  /** A block that leads with text is not mistaken for scratchpad. */
  lemma TextBlockStays(space: string, body: string)
    requires AllSpace(space) && LeadsWithText(body)
    ensures var s := space + OpenSummary() + body + CloseSummary();
            StripStep(s) == Done(s)
  {
    var s := space + OpenSummary() + body + CloseSummary();
    if Find(s, OpenAnalysis()).Some? {
      EchoIsNotLeading(space, body, Find(s, OpenAnalysis()).value);
    }
  }

  lemma TrimKeepsStart(body: string)
    requires TrimStart(body) != [] || Trim(body) != []
    ensures Trim(body) != [] && TrimStart(body) != [] && Trim(body)[0] == TrimStart(body)[0]
  {}

  lemma NumberedIsKept(s: string)
    requires NumberedLead(s) && Trim(s) == s
    ensures StripScratchpad(s) == s
  {
    FourTags();
    assert OpenSummary()[0] == '<';
  }

  lemma NumberedBodyIsKept(body: string)
    requires StartsNumbered(body)
    ensures StripScratchpad(Trim(body)) == Trim(body)
  {
    TrimTwice(body);
    NumberedIsKept(Trim(body));
  }

  lemma UnwrapBlock(space: string, body: string)
    requires AllSpace(space)
    ensures Unwrap(space + OpenSummary() + body + CloseSummary()) == space + "Summary:\n" + StripScratchpad(Trim(body))
  {
    FourTags();
    var s := space + OpenSummary() + body + CloseSummary();
    var from, end := |space| + |OpenSummary()|, |space + OpenSummary() + body|;
    SummaryBlockAt(space, body);
    LastTagAt(space + OpenSummary() + body, CloseSummary());
    assert s[..|space|] == space && s[from..end] == body && s[end + |CloseSummary()|..] == [];
  }

  lemma StripReply(analysis: string, space: string, body: string)
    requires !Contains(analysis, CloseAnalysis()) && AllSpace(space) && LeadsWithText(body)
    ensures StripAnalysis(Reply(analysis, space, body)) == space + OpenSummary() + body + CloseSummary()
  {
    var rest := space + OpenSummary() + body + CloseSummary();
    FirstBlockGoes(analysis, rest);
    TextBlockStays(space, body);
    assert StripAnalysis(rest) == rest;
  }

  /** A reply made of an analysis block and a summary block that leads with a
      numbered section becomes the heading and that section, cleaned: nothing of
      the analysis is left and nothing of the body is dropped. */
  lemma WellFormedReply(analysis: string, space: string, body: string)
    requires !Contains(analysis, CloseAnalysis()) && AllSpace(space) && StartsNumbered(body)
    ensures FormatSummary(Reply(analysis, space, body)) == Clean(space + "Summary:\n" + Trim(body))
  {
    NumberedLeadsWithText(body);
    StripReply(analysis, space, body);
    NumberedBodyIsKept(body);
    UnwrapBlock(space, body);
  }

  // ------------------------------------------------------ other replies

  /** A reply without an analysis or a summary tag is only cleaned. */
  lemma UntaggedReply(s: string)
    requires !Contains(s, OpenAnalysis()) && !Contains(s, OpenSummary())
    ensures FormatSummary(s) == Clean(s)
  {
    assert StripStep(s) == Done(s);
  }

  /** A text stays as it is when it leads with a numbered section or holds no closing
      analysis tag, and does not begin with a summary tag. */
  lemma DraftlessIsKept(s: string)
    requires Trim(s) == s && (NumberedLead(s) || !Contains(s, CloseAnalysis())) && !(OpenSummary() <= s)
    ensures StripScratchpad(s) == s
  {}

  /** The last closing analysis tag stands at `at`. */
  ghost predicate LastClose(s: string, at: nat) {
    MatchesAt(s, CloseAnalysis(), at) && forall k: nat :: at < k ==> !MatchesAt(s, CloseAnalysis(), k)
  }

  /** Otherwise everything up to the last closing analysis tag goes. */
  lemma DraftIsPeeled(s: string, at: nat)
    requires Trim(s) == s && !NumberedLead(s) && LastClose(s, at)
    ensures StripScratchpad(s) == WithoutInnerTag(TrimStart(s[at + |CloseAnalysis()|..]))
  {
    LastIsFound(s, at);
    PeeledAt(s, at);
  }

  lemma LastIsFound(s: string, at: nat)
    requires LastClose(s, at)
    ensures RFind(s, CloseAnalysis()) == Some(at)
  {}

  lemma PeeledAt(s: string, at: nat)
    requires Trim(s) == s && !NumberedLead(s) && RFind(s, CloseAnalysis()) == Some(at)
    ensures StripScratchpad(s) == WithoutInnerTag(TrimStart(s[at + |CloseAnalysis()|..]))
  {}

  /** A reply of an analysis block and a summary block of prose keeps the prose whole;
      what the model drafted inside the summary block before a closing analysis tag
      goes. */
  lemma ProseReply(analysis: string, space: string, body: string)
    requires !Contains(analysis, CloseAnalysis()) && AllSpace(space) && LeadsWithText(body)
    ensures !Contains(Trim(body), CloseAnalysis()) ==>
              FormatSummary(Reply(analysis, space, body)) == Clean(space + "Summary:\n" + Trim(body))
    ensures forall at: nat :: LastClose(Trim(body), at) && !NumberedLead(Trim(body)) ==>
              FormatSummary(Reply(analysis, space, body)) ==
              Clean(space + "Summary:\n" + WithoutInnerTag(TrimStart(Trim(body)[at + |CloseAnalysis()|..])))
  {
    StripReply(analysis, space, body);
    UnwrapBlock(space, body);
    TrimTwice(body);
    if !Contains(Trim(body), CloseAnalysis()) {
      TextIsNoTag(body);
      DraftlessIsKept(Trim(body));
    }
    forall at: nat | LastClose(Trim(body), at) && !NumberedLead(Trim(body))
      ensures FormatSummary(Reply(analysis, space, body)) ==
              Clean(space + "Summary:\n" + WithoutInnerTag(TrimStart(Trim(body)[at + |CloseAnalysis()|..])))
    {
      DraftIsPeeled(Trim(body), at);
    }
  }

  lemma TextIsNoTag(body: string)
    requires LeadsWithText(body)
    ensures !(OpenSummary() <= Trim(body))
  {
    FourTags();
    TrimKeepsStart(body);
    assert OpenSummary()[0] == '<';
  }

  /** An analysis block that is never closed takes everything up to the summary tag. */
  lemma UnclosedAnalysis(analysis: string, body: string)
    requires !Contains(OpenAnalysis() + analysis + OpenSummary() + body, CloseAnalysis())
    requires !Contains(OpenAnalysis() + analysis, OpenSummary())
    ensures StripStep(OpenAnalysis() + analysis + OpenSummary() + body) == Done(OpenSummary() + body)
  {
    var s := OpenAnalysis() + analysis + OpenSummary() + body;
    FourTags();
    FirstTagAt(OpenAnalysis() + analysis, OpenSummary(), body);
    assert s == [] + OpenAnalysis() + (analysis + OpenSummary() + body);
    FirstTagAt([], OpenAnalysis(), analysis + OpenSummary() + body);
    assert s[|OpenAnalysis() + analysis|..] == OpenSummary() + body;
    UnclosedStep(s, |OpenAnalysis() + analysis|);
  }

  /** Without a summary tag, an analysis tag counts only with nothing visible before it;
      then, when it is never closed, it takes everything after it. */
  lemma AnalysisAlone(s: string, start: nat)
    requires Find(s, OpenAnalysis()) == Some(start) && !Contains(s, OpenSummary())
    ensures !AllSpace(s[..start]) ==> StripStep(s) == Done(s)
    ensures AllSpace(s[..start]) && !Contains(s, CloseAnalysis()) ==> StripStep(s) == Done(s[..start])
  {
    TrimIsEmpty(s[..start]);
  }

  /** A text that holds no closing analysis tag stays, but for a summary tag that it
      begins with. */
  lemma UndraftedText(s: string)
    requires Trim(s) == s && !Contains(s, CloseAnalysis())
    ensures StripScratchpad(s) == WithoutInnerTag(s)
  {}

  lemma InnerTag(rest: string)
    ensures WithoutInnerTag(OpenSummary() + rest) == TrimStart(rest)
  {
    TagThenRest(OpenSummary(), rest);
  }

  lemma TagThenRest(tag: string, rest: string)
    ensures tag <= tag + rest && (tag + rest)[|tag|..] == rest
  {}

  lemma UnclosedStep(s: string, at: nat)
    requires Find(s, OpenAnalysis()) == Some(0) && Find(s, OpenSummary()) == Some(at) && at > 0
    requires !Contains(s, CloseAnalysis())
    ensures StripStep(s) == Done(s[at..])
  {
    assert IsLeading(s, 0);
    assert FindFrom(s, CloseAnalysis(), 0) == None;
    assert FindFrom(s, OpenSummary(), 0) == Some(at);
    assert s[..0] + s[at..] == s[at..];
  }
}
