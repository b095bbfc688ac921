/** Cleaning the compaction model's reply (`format_compact_summary`). */
module Summary {
  import opened Wrappers
  import opened Sequences
  import opened Strings

  const ZWSP: char := '\U{200B}'

  function OpenSummary(): string { "<summary>" }
  function CloseSummary(): string { "</summary>" }
  function OpenAnalysis(): string { "<analysis>" }
  function CloseAnalysis(): string { "</analysis>" }
  function OpenRequest(): string { "<summary_request>" }
  function CloseRequest(): string { "</summary_request>" }

  /** The control tags, in the order in which they are defused. */
  function Tags(): (tags: seq<string>)
    ensures |tags| == 6
  {
    [CloseSummary(), OpenSummary(), CloseAnalysis(), OpenAnalysis(), CloseRequest(), OpenRequest()]
  }

  /** What all six tags share: one `<`, at the front, and nothing that looks
      like white space or the inserted sentinel. */
  ghost predicate TagLike(t: string) {
    && |t| >= 2 && t[0] == '<'
    && (forall k :: 1 <= k < |t| ==> t[k] != '<')
    && (forall k :: 0 <= k < |t| ==> t[k] != ZWSP && !IsSpace(t[k]))
  }

  lemma SummaryTags()
    ensures TagLike(CloseSummary()) && TagLike(OpenSummary())
  {}

  lemma AnalysisTags()
    ensures TagLike(CloseAnalysis()) && TagLike(OpenAnalysis())
  {}

  lemma OpenRequestTag()
    ensures TagLike(OpenRequest())
  {}

  lemma CloseRequestTag()
    ensures TagLike(CloseRequest())
  {}

  lemma TagsAreTagLike()
    ensures forall k :: 0 <= k < 6 ==> TagLike(Tags()[k])
  {
    SummaryTags();
    AnalysisTags();
    OpenRequestTag();
    CloseRequestTag();
  }

  ghost predicate NoTags(s: string) {
    forall k :: 0 <= k < 6 ==> !Contains(s, Tags()[k])
  }

  // ------------------------------------------------------ defusing tags

  function Defused(t: string): string
    requires t != []
  {
    [t[0], ZWSP] + t[1..]
  }

  function Defuse(s: string, t: string): string
    requires t != []
  {
    Replace(s, t, Defused(t))
  }

  /** Defuse the first `n` tags, in order. */
  function DefuseFirst(s: string, n: nat): string
    requires n <= 6
  {
    if n == 0 then s
    else
      var t := Tags()[n - 1];
      if t == [] then s else Defuse(DefuseFirst(s, n - 1), t)
  }

  function Neutralize(s: string): string {
    DefuseFirst(s, 6)
  }

  /** Where an occurrence of a tag can lie once the first tag of `s` is defused. */
  lemma DefusedFront(s: string, t: string, i: nat, tail: string, u: string)
    requires TagLike(t) && TagLike(u) && Find(s, t) == Some(i)
    requires Contains(s[..i] + Defused(t) + tail, u)
    ensures Contains(tail, u) || (u != t && Contains(s, u))
  {
    var a, b := s[..i] + [t[0]], t[1..] + tail;
    assert s[..i] + Defused(t) + tail == a + [ZWSP] + b;
    SeparatedBy(a, ZWSP, b, u);
    if Contains(b, u) {
      AfterTheMark(t, tail, u);
    } else {
      BeforeTheMark(s, t, i, u);
    }
  }

  lemma AfterTheMark(t: string, tail: string, u: string)
    requires TagLike(t) && TagLike(u) && Contains(t[1..] + tail, u)
    ensures Contains(tail, u)
  {
    var b := t[1..] + tail;
    var k: nat :| MatchesAt(b, u, k);
    MatchIn(b, u, k);
    assert b[k + 0] == '<';
    MatchInSuffix(t[1..], tail, u, k - |t[1..]|);
  }

  lemma BeforeTheMark(s: string, t: string, i: nat, u: string)
    requires TagLike(t) && TagLike(u) && Find(s, t) == Some(i) && Contains(s[..i] + [t[0]], u)
    ensures u != t && Contains(s, u)
  {
    var a := s[..i] + [t[0]];
    var k: nat :| MatchesAt(a, u, k);
    MatchIn(s, t, i);
    assert s[i + 0] == t[0];
    assert s == a + s[i + 1..];
    MatchInPrefix(a, s[i + 1..], u, k);
    assert k < i;
  }

  lemma {:induction false} DefuseCreatesNothing(s: string, t: string, u: string)
    requires TagLike(t) && TagLike(u) && Contains(Defuse(s, t), u)
    ensures u != t && Contains(s, u)
    decreases |s|
  {
    if Find(s, t).Some? {
      var i := Find(s, t).value;
      var rest := s[i + |t|..];
      DefusedFront(s, t, i, Defuse(rest, t), u);
      if Contains(Defuse(rest, t), u) {
        DefuseCreatesNothing(rest, t, u);
        assert s == s[..i + |t|] + rest;
        ContainedInConcat(s[..i + |t|], rest, u);
      }
    }
  }

  lemma {:induction false} DefuseFirstRemoves(s: string, n: nat, k: nat)
    requires n <= 6 && k < 6
    ensures Contains(DefuseFirst(s, n), Tags()[k]) ==> k >= n && Contains(s, Tags()[k])
  {
    if n > 0 {
      DefuseFirstRemoves(s, n - 1, k);
      TagsAreTagLike();
      var t, u := Tags()[n - 1], Tags()[k];
      if Contains(DefuseFirst(s, n), u) {
        DefuseCreatesNothing(DefuseFirst(s, n - 1), t, u);
      }
    }
  }

  lemma NeutralizedHasNoTags(s: string)
    ensures NoTags(Neutralize(s))
  {
    forall k | 0 <= k < 6 ensures !Contains(Neutralize(s), Tags()[k]) {
      DefuseFirstRemoves(s, 6, k);
    }
  }

  lemma {:induction false} NothingToDefuse(s: string, n: nat)
    requires n <= 6 && NoTags(s)
    ensures DefuseFirst(s, n) == s
  {
    if n > 0 {
      NothingToDefuse(s, n - 1);
      assert !Contains(s, Tags()[n - 1]);
    }
  }

  /** Neutralizing twice is neutralizing once. */
  lemma NeutralizeIdempotent(s: string)
    ensures Neutralize(Neutralize(s)) == Neutralize(s)
  {
    NeutralizedHasNoTags(s);
    NothingToDefuse(Neutralize(s), 6);
  }

  /** `r` is `s` with some zero-width spaces put in. */
  predicate OnlyInserts(s: string, r: string)
    decreases |r|
  {
    if r == [] then s == []
    else (s != [] && s[0] == r[0] && OnlyInserts(s[1..], r[1..])) || (r[0] == ZWSP && OnlyInserts(s, r[1..]))
  }

  lemma {:induction false} InsertsNothing(s: string)
    ensures OnlyInserts(s, s)
  {
    if s != [] {
      InsertsNothing(s[1..]);
    }
  }

  lemma {:induction false} InsertsConcat(s1: string, r1: string, s2: string, r2: string)
    requires OnlyInserts(s1, r1) && OnlyInserts(s2, r2)
    ensures OnlyInserts(s1 + s2, r1 + r2)
    decreases |r1|
  {
    if r1 == [] {
      assert s1 + s2 == s2 && r1 + r2 == r2;
    } else {
      assert (r1 + r2)[1..] == r1[1..] + r2;
      if s1 != [] && s1[0] == r1[0] && OnlyInserts(s1[1..], r1[1..]) {
        assert (s1 + s2)[1..] == s1[1..] + s2;
        InsertsConcat(s1[1..], r1[1..], s2, r2);
      } else {
        InsertsConcat(s1, r1[1..], s2, r2);
      }
    }
  }

  lemma {:induction false} InsertsTransitive(a: string, b: string, c: string)
    requires OnlyInserts(a, b) && OnlyInserts(b, c)
    ensures OnlyInserts(a, c)
    decreases |c|, |b|
  {
    if c != [] {
      if b != [] && b[0] == c[0] && OnlyInserts(b[1..], c[1..]) {
        if a != [] && a[0] == b[0] && OnlyInserts(a[1..], b[1..]) {
          InsertsTransitive(a[1..], b[1..], c[1..]);
        } else {
          InsertsTransitive(a, b[1..], c[1..]);
        }
      } else {
        InsertsTransitive(a, b, c[1..]);
      }
    }
  }

  lemma InsertsSentinel(t: string)
    requires t != []
    ensures OnlyInserts(t, Defused(t))
  {
    var d := Defused(t);
    InsertsNothing(t[1..]);
    assert d[1..][1..] == t[1..] && d[1..][0] == ZWSP;
    assert OnlyInserts(t[1..], d[1..]);
  }

  lemma InsertsInMiddle(a: string, t: string, rest: string, newRest: string)
    requires t != [] && OnlyInserts(rest, newRest)
    ensures OnlyInserts(a + t + rest, a + Defused(t) + newRest)
  {
    InsertsNothing(a);
    InsertsSentinel(t);
    InsertsConcat(a, a, t, Defused(t));
    InsertsConcat(a + t, a + Defused(t), rest, newRest);
  }

  lemma {:induction false} DefuseOnlyInserts(s: string, t: string)
    requires t != []
    ensures OnlyInserts(s, Defuse(s, t))
    decreases |s|
  {
    match Find(s, t)
    case None =>
      InsertsNothing(s);
    case Some(i) =>
      var rest := s[i + |t|..];
      DefuseOnlyInserts(rest, t);
      InsertsInMiddle(s[..i], t, rest, Defuse(rest, t));
      assert s == s[..i] + t + rest;
  }

  lemma {:induction false} DefuseFirstOnlyInserts(s: string, n: nat)
    requires n <= 6
    ensures OnlyInserts(s, DefuseFirst(s, n))
  {
    if n == 0 {
      InsertsNothing(s);
    } else {
      DefuseFirstOnlyInserts(s, n - 1);
      TagsAreTagLike();
      DefuseOnlyInserts(DefuseFirst(s, n - 1), Tags()[n - 1]);
      InsertsTransitive(s, DefuseFirst(s, n - 1), DefuseFirst(s, n));
    }
  }

  /** The neutralizer changes a text only by inserting zero-width spaces. */
  lemma NeutralizeOnlyInserts(s: string)
    ensures OnlyInserts(s, Neutralize(s))
  {
    DefuseFirstOnlyInserts(s, 6);
  }

  // ------------------------------------------------------ blank lines

  function Lines(n: nat): (s: string)
    ensures |s| == n && forall k :: 0 <= k < n ==> s[k] == '\n'
  {
    seq(n, _ => '\n')
  }

  function Squeeze(s: string): string {
    Replace(s, Lines(3), Lines(2))
  }

  lemma {:induction false} SqueezeShrinks(s: string)
    ensures |Squeeze(s)| <= |s|
    ensures Contains(s, Lines(3)) ==> |Squeeze(s)| < |s|
    ensures !Contains(s, Lines(3)) ==> Squeeze(s) == s
    decreases |s|
  {
    if Find(s, Lines(3)).Some? {
      SqueezeShrinks(s[Find(s, Lines(3)).value + 3..]);
    }
  }

  lemma SqueezedFront(a: string, tail: string, u: string)
    requires TagLike(u) && Contains(a + Lines(2) + tail, u)
    ensures Contains(a, u) || Contains(tail, u)
  {
    assert IsSpace('\n');
    assert a + Lines(2) + tail == a + ['\n'] + (['\n'] + tail);
    SeparatedBy(a, '\n', ['\n'] + tail, u);
    if Contains(['\n'] + tail, u) {
      assert [] + ['\n'] + tail == ['\n'] + tail;
      SeparatedBy([], '\n', tail, u);
    }
  }

  lemma {:induction false} SqueezeCreatesNothing(s: string, u: string)
    requires TagLike(u) && Contains(Squeeze(s), u)
    ensures Contains(s, u)
    decreases |s|
  {
    if Find(s, Lines(3)).Some? {
      var i := Find(s, Lines(3)).value;
      var rest := s[i + 3..];
      SqueezedFront(s[..i], Squeeze(rest), u);
      assert s == s[..i] + s[i..i + 3] + rest;
      ContainedInConcat(s[..i], s[i..i + 3], u);
      if Contains(Squeeze(rest), u) {
        SqueezeCreatesNothing(rest, u);
      }
      ContainedInConcat(s[..i] + s[i..i + 3], rest, u);
    }
  }

  /** Squeeze until no run of three newlines is left. */
  function Collapse(s: string): (r: string)
    ensures !Contains(r, Lines(3))
    decreases |s|
  {
    if Find(s, Lines(3)).Some? then
      SqueezeShrinks(s);
      Collapse(Squeeze(s))
    else s
  }

  /** One pass that drops every newline after two in a row, `n` of which came before. */
  function AtMostTwo(s: string, n: nat): string {
    if s == [] then []
    else if s[0] != '\n' then [s[0]] + AtMostTwo(s[1..], 0)
    else if n < 2 then ['\n'] + AtMostTwo(s[1..], n + 1)
    else AtMostTwo(s[1..], 2)
  }

  lemma ThreeAreTwo(rest: string, n: nat)
    requires n <= 2
    ensures AtMostTwo(Lines(3) + rest, n) == AtMostTwo(Lines(2) + rest, n)
  {
    var one, two := ['\n'] + rest, ['\n'] + (['\n'] + rest);
    assert Lines(2) + rest == two && Lines(3) + rest == ['\n'] + two;
    OneNewline(two, n);
    OneNewline(one, n);
    OneNewline(one, if n < 2 then n + 1 else 2);
    OneNewline(rest, 1);
    OneNewline(rest, 2);
  }

  lemma OneNewline(t: string, n: nat)
    requires n <= 2
    ensures AtMostTwo(['\n'] + t, n) ==
            if n < 2 then ['\n'] + AtMostTwo(t, n + 1) else AtMostTwo(t, 2)
  {
    assert (['\n'] + t)[1..] == t;
  }

  lemma {:induction false} SameBehind(a: string, x: string, y: string, n: nat)
    requires n <= 2 && forall m: nat :: m <= 2 ==> AtMostTwo(x, m) == AtMostTwo(y, m)
    ensures AtMostTwo(a + x, n) == AtMostTwo(a + y, n)
  {
    if a == [] {
      assert a + x == x && a + y == y;
    } else {
      assert (a + x)[1..] == a[1..] + x && (a + y)[1..] == a[1..] + y;
      SameBehind(a[1..], x, y, if a[0] != '\n' then 0 else if n < 2 then n + 1 else 2);
    }
  }

  lemma {:induction false} SqueezeKeepsTwo(s: string, n: nat)
    requires n <= 2
    ensures AtMostTwo(Squeeze(s), n) == AtMostTwo(s, n)
    decreases |s|
  {
    if Find(s, Lines(3)).Some? {
      var i := Find(s, Lines(3)).value;
      var a, rest := s[..i], s[i + 3..];
      forall m: nat | m <= 2
        ensures AtMostTwo(Lines(2) + Squeeze(rest), m) == AtMostTwo(Lines(3) + rest, m)
      {
        forall k: nat | k <= 2
          ensures AtMostTwo(Squeeze(rest), k) == AtMostTwo(rest, k)
        {
          SqueezeKeepsTwo(rest, k);
        }
        SameBehind(Lines(2), Squeeze(rest), rest, m);
        ThreeAreTwo(rest, m);
      }
      SameBehind(a, Lines(2) + Squeeze(rest), Lines(3) + rest, n);
      assert s == a + (Lines(3) + rest);
      Assoc(a, Lines(2), Squeeze(rest));
    }
  }

  /** Without three newlines in a row there is nothing to drop. */
  lemma {:induction false} TwoIsFine(s: string, i: nat, n: nat)
    requires i <= |s| && n <= 2 && n <= i && NoThree(s)
    requires forall k :: i - n <= k < i ==> s[k] == '\n'
    ensures AtMostTwo(s[i..], n) == s[i..]
    decreases |s| - i
  {
    if i < |s| {
      assert s[i..][1..] == s[i + 1..];
      assert n == 2 ==> s[i - 2] == '\n' && s[i - 1] == '\n';
      if s[i] != '\n' {
        TwoIsFine(s, i + 1, 0);
      } else {
        TwoIsFine(s, i + 1, n + 1);
      }
    }
  }

  ghost predicate NoThree(s: string) {
    forall k :: 2 <= k < |s| ==> !(s[k - 2] == '\n' && s[k - 1] == '\n' && s[k] == '\n')
  }

  lemma NoThreeIff(s: string)
    ensures NoThree(s) <==> !Contains(s, Lines(3))
  {
    forall k | 2 <= k < |s| && s[k - 2] == '\n' && s[k - 1] == '\n' && s[k] == '\n'
      ensures MatchesAt(s, Lines(3), k - 2)
    {
      assert s[k - 2..k + 1] == Lines(3);
    }
    if i: nat :| MatchesAt(s, Lines(3), i) {
      MatchIn(s, Lines(3), i);
      assert s[i + 0] == '\n' && s[i + 1] == '\n' && s[i + 2] == '\n';
    }
  }

  /** Collapsing is that one pass: it drops newlines after two in a row and nothing
      else. */
  lemma {:induction false} CollapseIsOnePass(s: string)
    ensures Collapse(s) == AtMostTwo(s, 0)
    decreases |s|
  {
    if Find(s, Lines(3)).Some? {
      SqueezeShrinks(s);
      CollapseIsOnePass(Squeeze(s));
      SqueezeKeepsTwo(s, 0);
    } else {
      NoThreeIff(s);
      TwoIsFine(s, 0, 0);
      assert s[0..] == s;
    }
  }

  lemma {:induction false} CollapseCreatesNothing(s: string, u: string)
    requires TagLike(u) && Contains(Collapse(s), u)
    ensures Contains(s, u)
    decreases |s|
  {
    if Find(s, Lines(3)).Some? {
      SqueezeShrinks(s);
      CollapseCreatesNothing(Squeeze(s), u);
      SqueezeCreatesNothing(s, u);
    }
  }

  lemma TrimEndCreatesNothing(s: string, p: string)
    requires Contains(TrimEnd(s), p)
    ensures Contains(s, p)
  {
    ContainedInPrefix(s, TrimEnd(s), p);
  }

  lemma TrimStartCreatesNothing(s: string, p: string)
    requires Contains(TrimStart(s), p)
    ensures Contains(s, p)
  {
    var k := |s| - |TrimStart(s)|;
    assert s[k..] == TrimStart(s);
    ContainedInSuffix(s, k, p);
  }

  lemma TrimCreatesNothing(s: string, p: string)
    requires Contains(Trim(s), p)
    ensures Contains(s, p)
  {
    TrimEndCreatesNothing(TrimStart(s), p);
    TrimStartCreatesNothing(s, p);
  }

  /** The last three steps of the cleaner. */
  function Clean(s: string): string {
    Trim(Collapse(Neutralize(s)))
  }

  lemma CleanLeavesNothingLive(s: string)
    ensures NoTags(Clean(s)) && !Contains(Clean(s), Lines(3))
  {
    NeutralizedHasNoTags(s);
    TagsAreTagLike();
    forall k | 0 <= k < 6 ensures !Contains(Clean(s), Tags()[k]) {
      if Contains(Clean(s), Tags()[k]) {
        TrimCreatesNothing(Collapse(Neutralize(s)), Tags()[k]);
        CollapseCreatesNothing(Neutralize(s), Tags()[k]);
      }
    }
    if Contains(Clean(s), Lines(3)) {
      TrimCreatesNothing(Collapse(Neutralize(s)), Lines(3));
    }
  }

  lemma CleanFixesCleanText(s: string)
    requires NoTags(s) && !Contains(s, Lines(3)) && Trim(s) == s
    ensures Clean(s) == s
  {
    NothingToDefuse(s, 6);
  }
}
