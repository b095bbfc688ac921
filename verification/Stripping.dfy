/** Removing the blocks that the runtime injects around user text. */
module Stripping {
  import opened Wrappers
  import opened Sequences
  import opened Strings

  /** Tags whose blocks the runtime injects around user text. */
  function SystemTags(): (tags: seq<string>)
    ensures |tags| == 11
  {
    ["user_info", "project_layout", "git_status", "fork-context", "system-reminder", "agent-memory",
     "system_reminder", "background_context", "command-name", "command-message", "command-args"]
  }

  /** The tags by name. */
  lemma KnownTags()
    ensures "user_info" in SystemTags() && "project_layout" in SystemTags() && "git_status" in SystemTags()
    ensures "fork-context" in SystemTags() && "system-reminder" in SystemTags() && "agent-memory" in SystemTags()
    ensures "system_reminder" in SystemTags() && "background_context" in SystemTags()
    ensures "command-name" in SystemTags() && "command-message" in SystemTags() && "command-args" in SystemTags()
  {
    assert SystemTags()[0] == "user_info" && SystemTags()[1] == "project_layout" && SystemTags()[2] == "git_status";
    assert SystemTags()[3] == "fork-context" && SystemTags()[4] == "system-reminder" && SystemTags()[5] == "agent-memory";
    assert SystemTags()[6] == "system_reminder" && SystemTags()[7] == "background_context";
    assert SystemTags()[8] == "command-name" && SystemTags()[9] == "command-message" && SystemTags()[10] == "command-args";
  }

  function OpenTag(tag: string): string { "<" + tag + ">" }

  function CloseTag(tag: string): string { "</" + tag + ">" }

  /** A block starts at the first opening tag and the text goes on to close it. */
  ghost predicate HasBlock(s: string, open: string, close: string) {
    Find(s, open).Some? && FindFrom(s, close, Find(s, open).value).Some?
  }

  /** The text without its first block, if it has one. */
  function WithoutFirstBlock(s: string, open: string, close: string): (r: Option<string>)
    requires close != []
    ensures r.Some? <==> HasBlock(s, open, close)
    ensures r.Some? ==> |r.value| < |s|
  {
    match Find(s, open)
    case None => None
    case Some(start) =>
      match FindFrom(s, close, start)
      case None => None
      case Some(end) => Some(s[..start] + s[end + |close|..])
  }

  /** Remove blocks until the first opening tag is never closed. */
  function StripBlocks(s: string, open: string, close: string): (r: string)
    requires close != []
    ensures !HasBlock(r, open, close)
    decreases |s|
  {
    match WithoutFirstBlock(s, open, close)
    case None => s
    case Some(shorter) => StripBlocks(shorter, open, close)
  }

  /** Remove the blocks of the first `n` tags, one tag after another. */
  function StripTags(s: string, tags: seq<string>, n: nat): string
    requires n <= |tags|
  {
    if n == 0 then s
    else StripBlocks(StripTags(s, tags, n - 1), OpenTag(tags[n - 1]), CloseTag(tags[n - 1]))
  }

  function StripSystemTags(text: string): string {
    Trim(StripTags(text, SystemTags(), 11))
  }

  method StripBlocksLoop(s: string, open: string, close: string) returns (r: string)
    requires close != []
    ensures r == StripBlocks(s, open, close)
  {
    r := s;
    while true
      invariant StripBlocks(r, open, close) == StripBlocks(s, open, close)
      decreases |r|
    {
      var next := WithoutFirstBlock(r, open, close);
      if next.None? {
        return;
      }
      r := next.value;
    }
  }

  method StripSystemTagsLoop(text: string) returns (result: string)
    ensures result == StripSystemTags(text)
  {
    result := text;
    var tags := SystemTags();
    for n := 0 to 11
      invariant result == StripTags(text, tags, n)
    {
      result := StripBlocksLoop(result, OpenTag(tags[n]), CloseTag(tags[n]));
    }
    result := Trim(result);
  }

  // ------------------------------------------------------ what stripping leaves

  /** Nowhere does `s` break off an occurrence of `p` with an opening bracket. */
  ghost predicate Uninterrupted(s: string, p: string) {
    forall a: nat, k: nat {:trigger BrokenOff(s, p, a, k)} :: !BrokenOff(s, p, a, k)
  }

  /** The first `k` characters of `p` stand at `a`, and a bracket follows. */
  predicate BrokenOff(s: string, p: string, a: nat, k: nat) {
    && 0 < k < |p| && a + k < |s| && s[a + k] == '<'
    && forall h :: 0 <= h < k ==> s[a + h] == p[h]
  }

  ghost predicate TagUninterrupted(s: string, name: string) {
    Uninterrupted(s, OpenTag(name)) && Uninterrupted(s, CloseTag(name))
  }

  /** No opening or closing tag of the list is broken off. */
  ghost predicate TagsUninterrupted(s: string, tags: seq<string>) {
    forall m :: 0 <= m < |tags| ==> TagUninterrupted(s, tags[m])
  }

  ghost predicate ClosedBetween(s: string, a: int, b: int) {
    exists k :: a < k < b && 0 <= k < |s| && s[k] == '>'
  }

  /** Between two opening angle brackets there is a closing one. */
  ghost predicate BracketsApart(s: string) {
    forall i, j :: 0 <= i < j < |s| && s[i] == '<' && s[j] == '<' ==> ClosedBetween(s, i, j)
  }

  /** A string that begins and ends as a tag does, with no bracket inside. */
  predicate IsTag(p: string) {
    && |p| >= 2 && p[0] == '<' && p[|p| - 1] == '>'
    && forall k :: 0 < k < |p| - 1 ==> p[k] != '<' && p[k] != '>'
  }

  ghost predicate BlockAt(s: string, open: string, close: string, i: nat, j: nat) {
    i <= j && MatchesAt(s, open, i) && MatchesAt(s, close, j)
  }

  /** A block is any opening tag with a closing one somewhere after it. */
  lemma BlockIff(s: string, open: string, close: string)
    ensures HasBlock(s, open, close) <==> exists i: nat, j: nat :: BlockAt(s, open, close, i, j)
  {
    if HasBlock(s, open, close) {
      assert BlockAt(s, open, close, Find(s, open).value, FindFrom(s, close, Find(s, open).value).value);
    }
    if i: nat, j: nat :| BlockAt(s, open, close, i, j) {
      assert Find(s, open).value <= i;
    }
  }

  /** `s` without `s[i..j]`. */
  function Without(s: string, i: nat, j: nat): string
    requires i <= j <= |s|
  {
    s[..i] + s[j..]
  }

  /** Where position `a` of the shortened string was. */
  function Before(a: nat, i: nat, j: nat): nat
    requires i <= j
  {
    if a < i then a else a + (j - i)
  }

  lemma WithoutAt(s: string, i: nat, j: nat)
    requires i <= j <= |s|
    ensures forall a :: 0 <= a < |Without(s, i, j)| ==> Without(s, i, j)[a] == s[Before(a, i, j)]
  {}

  /** A tag cannot come to be across a cut that starts at a bracket. */
  lemma NoTagAcross(s: string, i: nat, j: nat, p: string, a: nat)
    requires i < j <= |s| && s[i] == '<' && Uninterrupted(s, p)
    requires MatchesAt(Without(s, i, j), p, a)
    ensures a + |p| <= i || i <= a
  {
    if a < i < a + |p| {
      MatchIn(Without(s, i, j), p, a);
      BrokenAtCut(s, i, j, p, a, |p|);
    }
  }

  /** What stands across the cut was broken off by the bracket that was cut out. */
  lemma BrokenAtCut(s: string, i: nat, j: nat, p: string, a: nat, k: nat)
    requires i < j <= |s| && s[i] == '<' && a < i < a + |p| && i <= a + k && k <= |p|
    requires a + k <= |Without(s, i, j)| && forall h :: 0 <= h < k ==> Without(s, i, j)[a + h] == p[h]
    ensures !Uninterrupted(s, p)
  {
    WithoutAt(s, i, j);
    forall h | 0 <= h < i - a
      ensures s[a + h] == p[h]
    {
      assert Without(s, i, j)[a + h] == s[a + h];
    }
    assert BrokenOff(s, p, a, i - a);
  }

  /** An occurrence that does not reach across the cut was there before. */
  lemma WasThere(s: string, i: nat, j: nat, p: string, a: nat)
    requires i <= j <= |s| && MatchesAt(Without(s, i, j), p, a) && !Across(a, |p|, i)
    ensures MatchesAt(s, p, Before(a, i, j))
  {
    Split(s, i);
    Split(s, j);
    if a < i {
      MatchInPrefix(s[..i], s[j..], p, a);
      MatchInPrefix(s[..i], s[i..], p, a);
    } else {
      MatchInSuffix(s[..i], s[j..], p, a - i);
      MatchInSuffix(s[..j], s[j..], p, a - i);
    }
  }

  predicate Across(a: nat, length: nat, i: nat) {
    a < i < a + length
  }

  ghost predicate BlockAcross(s: string, open: string, close: string, i: nat) {
    exists a: nat, b: nat :: BlockAt(s, open, close, a, b) && (Across(a, |open|, i) || Across(b, |close|, i))
  }

  /** Taking out any part of a text without a block brings one out exactly when a
      tag of it is put together across the cut. */
  lemma CutUncoversIff(s: string, i: nat, j: nat, open: string, close: string)
    requires i <= j <= |s| && !HasBlock(s, open, close)
    ensures HasBlock(Without(s, i, j), open, close) <==> BlockAcross(Without(s, i, j), open, close, i)
  {
    BlockIff(s, open, close);
    BlockIff(Without(s, i, j), open, close);
    if HasBlock(Without(s, i, j), open, close) && !BlockAcross(Without(s, i, j), open, close, i) {
      OldBlock(s, i, j, open, close);
    }
  }

  lemma OldBlock(s: string, i: nat, j: nat, open: string, close: string)
    requires i <= j <= |s| && HasBlock(Without(s, i, j), open, close)
    ensures BlockAcross(Without(s, i, j), open, close, i) || HasBlock(s, open, close)
  {
    BlockIff(s, open, close);
    BlockIff(Without(s, i, j), open, close);
    var a: nat, b: nat :| BlockAt(Without(s, i, j), open, close, a, b);
    if !Across(a, |open|, i) && !Across(b, |close|, i) {
      WasThere(s, i, j, open, a);
      WasThere(s, i, j, close, b);
      assert BlockAt(s, open, close, Before(a, i, j), Before(b, i, j));
    }
  }

  /** So removing something that starts at a bracket uncovers no block. */
  lemma UncoversNothing(s: string, i: nat, j: nat, open: string, close: string)
    requires i < j <= |s| && s[i] == '<' && Uninterrupted(s, open) && Uninterrupted(s, close)
    ensures HasBlock(Without(s, i, j), open, close) ==> HasBlock(s, open, close)
  {
    if HasBlock(Without(s, i, j), open, close) {
      OldBlock(s, i, j, open, close);
      if a: nat, b: nat :| BlockAt(Without(s, i, j), open, close, a, b)
                           && (Across(a, |open|, i) || Across(b, |close|, i)) {
        NoTagAcross(s, i, j, open, a);
        NoTagAcross(s, i, j, close, b);
      }
    }
  }

  /** Nor does it break off a tag. */
  lemma StaysUninterrupted(s: string, i: nat, j: nat, p: string)
    requires i < j <= |s| && s[i] == '<' && Uninterrupted(s, p)
    ensures Uninterrupted(Without(s, i, j), p)
  {
    forall a: nat, k: nat
      ensures !BrokenOff(Without(s, i, j), p, a, k)
    {
      if BrokenOff(Without(s, i, j), p, a, k) {
        BrokenBefore(s, i, j, p, a, k);
      }
    }
  }

  lemma BrokenBefore(s: string, i: nat, j: nat, p: string, a: nat, k: nat)
    requires i < j <= |s| && s[i] == '<' && BrokenOff(Without(s, i, j), p, a, k)
    ensures !Uninterrupted(s, p)
  {
    WithoutAt(s, i, j);
    if a < i <= a + k {
      BrokenAtCut(s, i, j, p, a, k);
    } else {
      forall h | 0 <= h < k
        ensures s[Before(a, i, j) + h] == p[h]
      {
        assert Without(s, i, j)[a + h] == p[h];
      }
      assert BrokenOff(s, p, Before(a, i, j), k);
    }
  }

  lemma TagStarts(s: string, open: string, i: nat)
    requires open != [] && MatchesAt(s, open, i)
    ensures i + |open| <= |s| && s[i] == open[0]
  {
    MatchIn(s, open, i);
    assert s[i + 0] == open[0];
  }

  /** One removal of a block. */
  lemma RemovalUncoversNothing(s: string, open: string, close: string, other: string, otherClose: string)
    requires open != [] && open[0] == '<' && close != [] && HasBlock(s, open, close)
    requires Uninterrupted(s, other) && Uninterrupted(s, otherClose)
    ensures var shorter := WithoutFirstBlock(s, open, close).value;
            && Uninterrupted(shorter, other) && Uninterrupted(shorter, otherClose)
            && (HasBlock(shorter, other, otherClose) ==> HasBlock(s, other, otherClose))
  {
    var i := Find(s, open).value;
    var j := FindFrom(s, close, i).value + |close|;
    TagStarts(s, open, i);
    StaysUninterrupted(s, i, j, other);
    StaysUninterrupted(s, i, j, otherClose);
    UncoversNothing(s, i, j, other, otherClose);
  }

  /** Removing one tag's blocks neither breaks off another tag nor uncovers a block
      of it, if it was not broken off before. */
  lemma {:induction false} StripUncoversNothing(s: string, open: string, close: string, other: string, otherClose: string)
    requires open != [] && open[0] == '<' && close != []
    requires Uninterrupted(s, other) && Uninterrupted(s, otherClose)
    ensures var r := StripBlocks(s, open, close);
            && Uninterrupted(r, other) && Uninterrupted(r, otherClose)
            && (HasBlock(r, other, otherClose) ==> HasBlock(s, other, otherClose))
    decreases |s|
  {
    match WithoutFirstBlock(s, open, close) {
      case None =>
      case Some(shorter) =>
        RemovalUncoversNothing(s, open, close, other, otherClose);
        StripUncoversNothing(shorter, open, close, other, otherClose);
    }
  }

  predicate Plain(name: string) {
    forall k :: 0 <= k < |name| ==> name[k] != '<' && name[k] != '>'
  }

  lemma PlainIsTag(name: string)
    requires Plain(name)
    ensures IsTag(OpenTag(name)) && IsTag(CloseTag(name))
  {}

  ghost predicate AllPlain(tags: seq<string>) {
    forall m :: 0 <= m < |tags| ==> Plain(tags[m])
  }

  lemma SystemTagsPlain()
    ensures AllPlain(SystemTags())
  {
    PlainNames0();
    PlainNames4();
    PlainNames8();
  }

  lemma PlainNames0()
    ensures Plain("user_info") && Plain("project_layout") && Plain("git_status") && Plain("fork-context")
  {}

  lemma PlainNames4()
    ensures Plain("system-reminder") && Plain("agent-memory") && Plain("system_reminder") && Plain("background_context")
  {}

  lemma PlainNames8()
    ensures Plain("command-name") && Plain("command-message") && Plain("command-args")
  {}

  ghost predicate TagGone(s: string, name: string) {
    !HasBlock(s, OpenTag(name), CloseTag(name))
  }

  /** `s` holds no block of the first `n` tags. */
  ghost predicate NoBlocks(s: string, tags: seq<string>, n: nat)
    requires n <= |tags|
  {
    forall m :: 0 <= m < n ==> TagGone(s, tags[m])
  }

  lemma NextTagGone(s: string, name: string, other: string)
    requires TagUninterrupted(s, other)
    ensures var r := StripBlocks(s, OpenTag(name), CloseTag(name));
            TagUninterrupted(r, other) && TagGone(r, name) && (TagGone(s, other) ==> TagGone(r, other))
  {
    StripUncoversNothing(s, OpenTag(name), CloseTag(name), OpenTag(other), CloseTag(other));
  }

  lemma {:induction false} FirstTagsGone(text: string, tags: seq<string>, n: nat)
    requires n <= |tags| && TagsUninterrupted(text, tags)
    ensures TagsUninterrupted(StripTags(text, tags, n), tags) && NoBlocks(StripTags(text, tags, n), tags, n)
  {
    if n > 0 {
      FirstTagsGone(text, tags, n - 1);
      var before := StripTags(text, tags, n - 1);
      forall m | 0 <= m < |tags|
        ensures TagUninterrupted(StripTags(text, tags, n), tags[m])
        ensures m < n ==> TagGone(StripTags(text, tags, n), tags[m])
      {
        assert TagUninterrupted(before, tags[m]);
        NextTagGone(before, tags[n - 1], tags[m]);
      }
    }
  }

  lemma PrefixUncovers(s: string, e: string, open: string, close: string)
    requires e <= s
    ensures HasBlock(e, open, close) ==> HasBlock(s, open, close)
  {
    BlockIff(e, open, close);
    BlockIff(s, open, close);
    if HasBlock(e, open, close) {
      var i: nat, j: nat :| BlockAt(e, open, close, i, j);
      assert s == e + s[|e|..];
      MatchInPrefix(e, s[|e|..], open, i);
      MatchInPrefix(e, s[|e|..], close, j);
      assert BlockAt(s, open, close, i, j);
    }
  }

  lemma SuffixUncovers(s: string, lead: nat, open: string, close: string)
    requires lead <= |s|
    ensures HasBlock(s[lead..], open, close) ==> HasBlock(s, open, close)
  {
    Split(s, lead);
    LeadUncovers(s[..lead], s[lead..], open, close);
  }

  lemma LeadUncovers(lead: string, t: string, open: string, close: string)
    ensures HasBlock(t, open, close) ==> HasBlock(lead + t, open, close)
  {
    BlockIff(t, open, close);
    BlockIff(lead + t, open, close);
    if HasBlock(t, open, close) {
      var i: nat, j: nat :| BlockAt(t, open, close, i, j);
      MatchInSuffix(lead, t, open, i);
      MatchInSuffix(lead, t, close, j);
      assert BlockAt(lead + t, open, close, |lead| + i, |lead| + j);
    }
  }

  lemma TrimUncoversNothing(s: string, open: string, close: string)
    ensures HasBlock(Trim(s), open, close) ==> HasBlock(s, open, close)
  {
    var t := TrimStart(s);
    PrefixUncovers(t, TrimEnd(t), open, close);
    SuffixUncovers(s, |s| - |t|, open, close);
  }

  lemma TrimmedNoBlocks(s: string, tags: seq<string>, n: nat)
    requires n <= |tags| && NoBlocks(s, tags, n)
    ensures NoBlocks(Trim(s), tags, n)
  {
    forall m | 0 <= m < n
      ensures TagGone(Trim(s), tags[m])
    {
      assert TagGone(s, tags[m]);
      TrimUncoversNothing(s, OpenTag(tags[m]), CloseTag(tags[m]));
    }
  }

  /** When the text breaks off no opening or closing tag with a bracket, stripping
      leaves no block of any of the eleven tags. */
  lemma StrippedHasNoBlocks(text: string)
    requires TagsUninterrupted(text, SystemTags())
    ensures NoBlocks(StripSystemTags(text), SystemTags(), 11)
  {
    FirstTagsGone(text, SystemTags(), 11);
    TrimmedNoBlocks(StripTags(text, SystemTags(), 11), SystemTags(), 11);
  }

  /** That is so, for instance, when the brackets of the text are apart. */
  lemma ApartIsUninterrupted(text: string)
    requires BracketsApart(text)
    ensures TagsUninterrupted(text, SystemTags())
  {
    SystemTagsPlain();
    forall m | 0 <= m < 11
      ensures TagUninterrupted(text, SystemTags()[m])
    {
      PlainIsTag(SystemTags()[m]);
      ApartBreaksNothing(text, OpenTag(SystemTags()[m]));
      ApartBreaksNothing(text, CloseTag(SystemTags()[m]));
    }
  }

  lemma ApartBreaksNothing(s: string, p: string)
    requires BracketsApart(s) && IsTag(p)
    ensures Uninterrupted(s, p)
  {
    forall a: nat, k: nat
      ensures !BrokenOff(s, p, a, k)
    {
      if BrokenOff(s, p, a, k) {
        NothingClosed(s, p, a, k);
      }
    }
  }

  lemma NothingClosed(s: string, p: string, a: nat, k: nat)
    requires IsTag(p) && BrokenOff(s, p, a, k)
    ensures s[a] == '<' && s[a + k] == '<' && !ClosedBetween(s, a, a + k)
  {
    assert s[a + 0] == p[0];
    forall x | a < x < a + k
      ensures s[x] != '>'
    {
      assert s[a + (x - a)] == p[x - a];
    }
  }

  /** For every text the tag that is removed last has no block left. */
  lemma LastTagGone(text: string)
    ensures TagGone(StripSystemTags(text), SystemTags()[10])
  {
    var open, close := OpenTag(SystemTags()[10]), CloseTag(SystemTags()[10]);
    TrimUncoversNothing(StripTags(text, SystemTags(), 11), open, close);
  }

  // ------------------------------------------------------ stripping again

  lemma {:induction false} StripShortens(s: string, open: string, close: string)
    requires close != []
    ensures |StripBlocks(s, open, close)| <= |s|
    ensures |StripBlocks(s, open, close)| == |s| <==> !HasBlock(s, open, close)
    ensures !HasBlock(s, open, close) ==> StripBlocks(s, open, close) == s
    decreases |s|
  {
    match WithoutFirstBlock(s, open, close) {
      case None =>
      case Some(shorter) => StripShortens(shorter, open, close);
    }
  }

  /** The length of what is left tells whether the first `n` tags had blocks. */
  ghost predicate LengthTells(s: string, r: string, tags: seq<string>, n: nat)
    requires n <= |tags|
  {
    |r| <= |s| && (|r| == |s| <==> NoBlocks(s, tags, n)) && (|r| == |s| ==> r == s)
  }

  lemma {:induction false} StripKeepsLengthIff(s: string, tags: seq<string>, n: nat)
    requires n <= |tags|
    ensures LengthTells(s, StripTags(s, tags, n), tags, n)
  {
    if n > 0 {
      StripKeepsLengthIff(s, tags, n - 1);
      LengthTellsNext(s, StripTags(s, tags, n - 1), tags, n - 1);
    }
  }

  lemma LengthTellsNext(s: string, r: string, tags: seq<string>, n: nat)
    requires n < |tags| && LengthTells(s, r, tags, n)
    ensures LengthTells(s, StripBlocks(r, OpenTag(tags[n]), CloseTag(tags[n])), tags, n + 1)
  {
    NoBlocksOneMore(s, tags, n);
    OneMoreKeepsLengthIff(s, r, OpenTag(tags[n]), CloseTag(tags[n]));
  }

  lemma OneMoreKeepsLengthIff(s: string, r: string, open: string, close: string)
    requires close != [] && |r| <= |s| && (|r| == |s| ==> r == s)
    ensures var next := StripBlocks(r, open, close);
            && |next| <= |s| && (|next| == |s| <==> |r| == |s| && !HasBlock(s, open, close))
            && (|next| == |s| ==> next == s)
  {
    StripShortens(r, open, close);
  }

  lemma NoBlocksOneMore(s: string, tags: seq<string>, n: nat)
    requires n < |tags|
    ensures NoBlocks(s, tags, n + 1) <==> NoBlocks(s, tags, n) && TagGone(s, tags[n])
  {}

  /** Stripping what was stripped changes nothing exactly when it holds no block. */
  lemma StrippedAgainIff(text: string)
    ensures var r := StripSystemTags(text); StripSystemTags(r) == r <==> NoBlocks(r, SystemTags(), 11)
  {
    StripKeepsLengthIff(StripSystemTags(text), SystemTags(), 11);
    TrimTwice(StripTags(text, SystemTags(), 11));
  }

  // ------------------------------------------------------ an uncovered block

  /** No opening bracket is followed by `c`. */
  ghost predicate NeverStarts(s: string, c: char) {
    forall i :: 0 <= i < |s| - 1 && s[i] == '<' ==> s[i + 1] != c
  }

  lemma NeverStartsJoin(a: string, b: string, c: char)
    requires NeverStarts(a, c) && NeverStarts(b, c) && (a == [] || a[|a| - 1] != '<')
    ensures NeverStarts(a + b, c)
  {}

  lemma StartedByBlock(s: string, tag: string)
    requires tag != [] && !TagGone(s, tag)
    ensures !NeverStarts(s, tag[0])
  {
    var i := Find(s, OpenTag(tag)).value;
    MatchIn(s, OpenTag(tag), i);
    assert OpenTag(tag)[0] == '<' && OpenTag(tag)[1] == tag[0];
    assert s[i + 0] == OpenTag(tag)[0] && s[i + 1] == OpenTag(tag)[1];
  }

  lemma NeverStarted(s: string, tag: string)
    requires tag != [] && NeverStarts(s, tag[0])
    ensures TagGone(s, tag) && StripBlocks(s, OpenTag(tag), CloseTag(tag)) == s
  {
    if !TagGone(s, tag) {
      StartedByBlock(s, tag);
    }
  }

  lemma {:induction false} NeverStartedStays(s: string, r: string, tags: seq<string>, lo: nat, hi: nat)
    requires lo <= hi <= |tags| && StripTags(s, tags, lo) == r
    requires forall m :: lo <= m < hi ==> tags[m] != [] && NeverStarts(r, tags[m][0])
    ensures StripTags(s, tags, hi) == r
  {
    if lo < hi {
      NeverStartedStays(s, r, tags, lo, hi - 1);
      NeverStarted(r, tags[hi - 1]);
    }
  }

  /** A block with nothing in it, in the middle of a text that does not open it. */
  lemma EmptyBlockGoes(before: string, name: string, after: string)
    requires Plain(name) && name != [] && name[0] != '/'
    requires before != [] && before[|before| - 1] != '<' && NeverStarts(before, name[0])
    ensures var open, close := OpenTag(name), CloseTag(name);
            WithoutFirstBlock(before + (open + (close + after)), open, close) == Some(before + after)
  {
    var open, close := OpenTag(name), CloseTag(name);
    OpenAt(before, name, close + after);
    CloseAt(before, name, after);
    BlockCutOut(before, open, close, after);
  }

  lemma BlockCutOut(before: string, open: string, close: string, after: string)
    ensures var s := before + (open + (close + after));
            s[..|before|] == before && s[|before| + |open| + |close|..] == after
  {
    Unsplit(before, open + (close + after));
    assert before + (open + (close + after)) == (before + open + close) + after;
    Unsplit(before + open + close, after);
  }

  lemma OpenAt(before: string, name: string, rest: string)
    requires name != [] && before != [] && before[|before| - 1] != '<' && NeverStarts(before, name[0])
    ensures Find(before + (OpenTag(name) + rest), OpenTag(name)) == Some(|before|)
  {
    var s, open := before + (OpenTag(name) + rest), OpenTag(name);
    MatchInPrefix(open, rest, open, 0);
    MatchInSuffix(before, open + rest, open, 0);
    forall k: nat | k < |before|
      ensures !MatchesAt(s, open, k)
    {
      if MatchesAt(s, open, k) {
        StartsInside(before, name, open + rest, k);
      }
    }
  }

  lemma StartsInside(before: string, name: string, rest: string, k: nat)
    requires name != [] && k < |before| && MatchesAt(before + rest, OpenTag(name), k)
    ensures before[k] == '<' && (k + 1 < |before| ==> before[k + 1] == name[0])
  {
    MatchIn(before + rest, OpenTag(name), k);
    assert (before + rest)[k + 0] == OpenTag(name)[0] && (before + rest)[k + 1] == OpenTag(name)[1];
  }

  lemma CloseAt(before: string, name: string, after: string)
    requires Plain(name) && name != [] && name[0] != '/'
    ensures var s := before + (OpenTag(name) + (CloseTag(name) + after));
            |before| <= |s| && FindFrom(s, CloseTag(name), |before|) == Some(|before| + |OpenTag(name)|)
  {
    var close, rest := CloseTag(name), OpenTag(name) + (CloseTag(name) + after);
    MatchInPrefix(close, after, close, 0);
    MatchInSuffix(OpenTag(name), close + after, close, 0);
    forall k: nat | k < |OpenTag(name)|
      ensures !MatchesAt(rest, close, k)
    {
      NoCloseInside(name, close + after, k);
    }
    FirstFrom(before, rest, close, |OpenTag(name)|);
    FindFromIs(before + rest, close, |before|, |before| + |OpenTag(name)|);
  }

  lemma NoCloseInside(name: string, rest: string, k: nat)
    requires Plain(name) && name != [] && name[0] != '/' && k < |OpenTag(name)|
    ensures !MatchesAt(OpenTag(name) + rest, CloseTag(name), k)
  {
    if MatchesAt(OpenTag(name) + rest, CloseTag(name), k) {
      CloseInside(OpenTag(name), name, rest, k);
    }
  }

  lemma CloseInside(open: string, name: string, rest: string, k: nat)
    requires k < |open| && MatchesAt(open + rest, CloseTag(name), k)
    ensures open[k] == '<' && (k + 1 < |open| ==> open[k + 1] == '/')
  {
    MatchIn(open + rest, CloseTag(name), k);
    assert (open + rest)[k + 0] == CloseTag(name)[0] && (open + rest)[k + 1] == CloseTag(name)[1];
  }

  /** One tag's opening, with another tag's empty block inside it. */
  function NestedText(): string {
    "<user_" + (OpenTag("git_status") + (CloseTag("git_status") + "info>x</user_info>"))
  }

  function UncoveredText(): string {
    "<user_" + "info>x</user_info>"
  }

  lemma Pieces(c: char)
    ensures c != 'u' ==> NeverStarts("<user_", c)
    ensures c != 'g' ==> NeverStarts(OpenTag("git_status"), c)
    ensures c != '/' ==> NeverStarts(CloseTag("git_status"), c)
    ensures c != '/' ==> NeverStarts("info>x</user_info>", c)
  {}

  lemma NestedStarts(c: char)
    requires c != 'g' && c != '/'
    ensures var inner := OpenTag("git_status") + (CloseTag("git_status") + "info>x</user_info>");
            NeverStarts(inner, c) && (c != 'u' ==> NeverStarts("<user_" + inner, c) && NeverStarts(UncoveredText(), c))
  {
    Pieces(c);
    NeverStartsJoin(CloseTag("git_status"), "info>x</user_info>", c);
    NeverStartsJoin(OpenTag("git_status"), CloseTag("git_status") + "info>x</user_info>", c);
    if c != 'u' {
      NeverStartsJoin("<user_", OpenTag("git_status") + (CloseTag("git_status") + "info>x</user_info>"), c);
      NeverStartsJoin("<user_", "info>x</user_info>", c);
    }
  }

  /** The outer tag is not there at first. */
  lemma NotOpenedYet(inner: string)
    requires inner != [] && inner[0] == '<' && NeverStarts(inner, 'u')
    ensures TagGone("<user_" + inner, "user_info")
  {
    var s, open := "<user_" + inner, OpenTag("user_info");
    if Find(s, open).Some? {
      InnerOpening(inner, Find(s, open).value);
    }
  }

  lemma InnerOpening(inner: string, i: nat)
    requires inner != [] && inner[0] == '<' && MatchesAt("<user_" + inner, OpenTag("user_info"), i)
    ensures !NeverStarts(inner, 'u')
  {
    var s, open := "<user_" + inner, OpenTag("user_info");
    MatchIn(s, open, i);
    assert s[i + 0] == open[0] && s[i + 1] == open[1] && s[i + 6] == open[6];
    assert open[6] == 'i' && s[6] == inner[0];
    assert i >= 6 && inner[i - 6] == s[i] && inner[i - 5] == s[i + 1];
  }

  lemma UncoveredBlock()
    ensures !TagGone(UncoveredText(), "user_info")
  {
    var s, open, close := UncoveredText(), OpenTag("user_info"), CloseTag("user_info");
    UncoveredIsBlock(open, "x", close);
    OneBlock(open, "x", close);
  }

  lemma UncoveredIsBlock(open: string, body: string, close: string)
    requires open == OpenTag("user_info") && body == "x" && close == CloseTag("user_info")
    ensures UncoveredText() == (open + body) + close
  {}

  lemma OneBlock(open: string, body: string, close: string)
    ensures HasBlock((open + body) + close, open, close)
  {
    var s := (open + body) + close;
    MatchInPrefix(open, body, open, 0);
    MatchInPrefix(open + body, close, open, 0);
    MatchInSuffix(open + body, close, close, 0);
    BlockIff(s, open, close);
    assert BlockAt(s, open, close, 0, |open + body|);
  }

  lemma NestedLosesGitStatus()
    ensures StripBlocks(NestedText(), OpenTag("git_status"), CloseTag("git_status")) == UncoveredText()
  {
    Pieces('g');
    EmptyBlockGoes("<user_", "git_status", "info>x</user_info>");
    NeverStartsJoin("<user_", "info>x</user_info>", 'g');
    NeverStarted(UncoveredText(), "git_status");
  }

  lemma FirstTwoStay(tags: seq<string>)
    requires |tags| == 11 && tags[0] == "user_info" && tags[1] == "project_layout"
    ensures StripTags(NestedText(), tags, 2) == NestedText()
  {
    var inner := OpenTag("git_status") + (CloseTag("git_status") + "info>x</user_info>");
    NestedStarts('u');
    NotOpenedYet(inner);
    assert StripTags(NestedText(), tags, 1) == NestedText();
    NestedStarts('p');
    NeverStarted(NestedText(), "project_layout");
  }

  lemma LaterNames()
    ensures forall m :: 3 <= m < 11 ==>
              SystemTags()[m] != [] && SystemTags()[m][0] in {'f', 's', 'a', 'b', 'c'}
  {}

  lemma NestedIsUncovered(tags: seq<string>)
    requires |tags| == 11 && tags[0] == "user_info" && tags[1] == "project_layout" && tags[2] == "git_status"
    requires forall m :: 3 <= m < 11 ==> tags[m] != [] && tags[m][0] in {'f', 's', 'a', 'b', 'c'}
    ensures StripTags(NestedText(), tags, 11) == UncoveredText()
  {
    FirstTwoStay(tags);
    NestedLosesGitStatus();
    forall m | 3 <= m < 11
      ensures tags[m] != [] && NeverStarts(UncoveredText(), tags[m][0])
    {
      NestedStarts(tags[m][0]);
    }
    NeverStartedStays(NestedText(), UncoveredText(), tags, 3, 11);
  }

  lemma UncoveredIsTrimmed()
    ensures Trim(UncoveredText()) == UncoveredText()
  {
    TrimmedStays(UncoveredText());
  }

  lemma NestedStripped()
    ensures StripTags(NestedText(), SystemTags(), 11) == UncoveredText()
  {
    LaterNames();
    NestedIsUncovered(SystemTags());
  }

  /** Stripping in one pass over the tags can leave a block: taking out the inner
      one puts the outer tag together after its turn. */
  lemma RemovalCanUncover()
    ensures StripSystemTags(NestedText()) == UncoveredText() && !TagGone(UncoveredText(), "user_info")
  {
    NestedStripped();
    UncoveredIsTrimmed();
    UncoveredBlock();
  }
}
