/** Which user items are real prompts, and the text of the query inside them. */
module UserQuery {
  import opened Wrappers
  import opened Sequences
  import opened Strings
  import opened Conversation
  import opened Summary
  import opened SummaryFormat
  import opened Stripping

  const AUTO_CONTINUE_PROMPT: string :=
    "Continue the conversation from where it left off without " + ("asking the user any further questions. "
    + ("Resume directly - do not acknowledge the summary, " + ("do not recap what was happening, "
    + ("do not preface with \"I'll continue\" or similar.\n"
    + "Pick up the last task as if the break never happened."))))

  function OpenQuery(): string { "<user_query>" }

  function CloseQuery(): string { "</user_query>" }

  /** The text inside the query tags when there are any. */
  function QueryText(text: string): string {
    match Find(text, OpenQuery())
    case None => text
    case Some(start) =>
      var content := start + |OpenQuery()|;
      match FindFrom(text, CloseQuery(), content)
      case None => text
      case Some(end) => Trim(text[content..end])
  }

  /** That text without injected blocks. */
  function ExtractUserQuery(text: string): string {
    StripSystemTags(QueryText(text))
  }

  predicate IsSyntheticExtractedQuery(text: string) {
    text == "" || text == "__auto_continue__" || text == AUTO_CONTINUE_PROMPT
  }

  /** Text parts joined by newlines. */
  function JoinedText(parts: seq<ContentPart>): string {
    Joined(TextsOf(parts))
  }

  function TextsOf(parts: seq<ContentPart>): seq<string> {
    if parts == [] then []
    else (if parts[0].Text? then [parts[0].text] else []) + TextsOf(parts[1..])
  }

  function Joined(texts: seq<string>): string {
    if texts == [] then "" else if |texts| == 1 then texts[0] else texts[0] + "\n" + Joined(texts[1..])
  }

  predicate IsRealUserTurn(item: Item) {
    && item.User?
    && item.synthetic.None?
    && ((exists k :: 0 <= k < |item.parts| && item.parts[k].Image?)
        || !IsSyntheticExtractedQuery(ExtractUserQuery(JoinedText(item.parts))))
  }

  function WrapUserQuery(text: string): string {
    OpenQuery() + "\n" + text + "\n" + CloseQuery()
  }

  // ------------------------------------------------------ round trip

  lemma {:induction false} TrimStartSpaced(w: string, s: string)
    requires AllSpace(w)
    ensures TrimStart(w + s) == TrimStart(s)
  {
    if w == [] {
      assert w + s == s;
    } else {
      assert (w + s)[1..] == w[1..] + s;
      TrimStartSpaced(w[1..], s);
    }
  }

  lemma {:induction false} TrimEndSpaced(s: string, w: string)
    requires AllSpace(w)
    ensures TrimEnd(s + w) == TrimEnd(s)
    decreases |w|
  {
    if w == [] {
      assert s + w == s;
    } else {
      assert (s + w)[..|s + w| - 1] == s + w[..|w| - 1];
      TrimEndSpaced(s, w[..|w| - 1]);
    }
  }

  lemma {:induction false} TrimStartAppend(s: string, w: string)
    requires !AllSpace(s)
    ensures TrimStart(s + w) == TrimStart(s) + w
  {
    if IsSpace(s[0]) {
      assert (s + w)[1..] == s[1..] + w;
      Front(s);
      TrimStartAppend(s[1..], w);
    }
  }

  /** White space on both sides does not matter to `Trim`. */
  lemma TrimSpaced(a: string, s: string, b: string)
    requires AllSpace(a) && AllSpace(b)
    ensures Trim(a + s + b) == Trim(s)
  {
    Assoc(a, s, b);
    TrimStartSpaced(a, s + b);
    if AllSpace(s) {
      TrimIsEmpty(s);
      TrimIsEmpty(s + b);
    } else {
      TrimStartAppend(s, b);
      TrimEndSpaced(TrimStart(s), b);
    }
  }

  lemma NoCloseBefore(text: string)
    requires !Contains(text, CloseQuery())
    ensures !Contains(OpenQuery() + "\n" + text + "\n", CloseQuery())
  {
    var c := CloseQuery();
    if Contains(OpenQuery() + "\n" + text + "\n", c) {
      assert OpenQuery() + "\n" + text + "\n" == OpenQuery() + ['\n'] + (text + ['\n'] + []);
      SeparatedBy(OpenQuery(), '\n', text + ['\n'] + [], c);
      assert !Contains(OpenQuery(), c);
      SeparatedBy(text, '\n', [], c);
    }
  }

  /** The query up to its first closing tag: all of it when it has none. */
  function UpToClose(text: string): string {
    match Find(text, CloseQuery())
    case None => text
    case Some(end) => text[..end]
  }

  /** The close tag of the wrapper is the first one when the text has none. */
  lemma CloseQueryAt(text: string)
    requires !Contains(text, CloseQuery())
    ensures FindFrom(WrapUserQuery(text), CloseQuery(), |OpenQuery()|) == Some(|OpenQuery()| + |text| + 2)
  {
    var before := OpenQuery() + "\n" + text + "\n";
    NoCloseBefore(text);
    assert IsSpace('\n') && TagLike(CloseQuery());
    FirstTagAt(before, CloseQuery(), []);
    assert before + CloseQuery() + [] == WrapUserQuery(text);
  }

  lemma FirstAfterChar(c: char, rest: string, p: string, at: nat)
    requires IsFirst(rest, p, at) && p != [] && p[0] != c
    ensures IsFirst([c] + rest, p, 1 + at)
  {
    MatchInSuffix([c], rest, p, at);
    forall k: nat | k < 1 + at
      ensures !MatchesAt([c] + rest, p, k)
    {
      if k > 0 {
        MatchInSuffix([c], rest, p, k - 1);
      } else {
        assert ([c] + rest)[0] != p[0];
      }
    }
  }

  /** Otherwise the text's own first closing tag is. */
  lemma OwnCloseAt(before: string, text: string, after: string, p: string, end: nat)
    requires IsFirst(text, p, end) && p != [] && p[0] != '\n'
    ensures IsFirstFrom(before + (['\n'] + (text + after)), p, |before|, |before| + 1 + end)
  {
    FirstAppended(text, after, p, end);
    FirstAfterChar('\n', text + after, p, end);
    FirstFrom(before, ['\n'] + (text + after), p, 1 + end);
  }

  lemma OpenQueryAt(text: string)
    ensures Find(WrapUserQuery(text), OpenQuery()) == Some(0)
  {
    assert MatchesAt(WrapUserQuery(text), OpenQuery(), 0);
  }

  lemma ExtractWhole(text: string)
    requires !Contains(text, CloseQuery())
    ensures QueryText(WrapUserQuery(text)) == Trim(text)
  {
    var s, from := WrapUserQuery(text), |OpenQuery()|;
    OpenQueryAt(text);
    CloseQueryAt(text);
    assert s[from..from + |text| + 2] == "\n" + text + "\n";
    TrimSpaced("\n", text, "\n");
  }

  lemma WrappedParts(text: string)
    ensures WrapUserQuery(text) == OpenQuery() + (['\n'] + (text + ("\n" + CloseQuery())))
  {}

  lemma CutCloseAt(text: string, end: nat)
    requires Find(text, CloseQuery()) == Some(end)
    ensures |OpenQuery()| <= |WrapUserQuery(text)|
    ensures FindFrom(WrapUserQuery(text), CloseQuery(), |OpenQuery()|) == Some(|OpenQuery()| + 1 + end)
  {
    FindIsFirst(text, CloseQuery(), end);
    OwnCloseAt(OpenQuery(), text, "\n" + CloseQuery(), CloseQuery(), end);
    WrappedParts(text);
    FindFromIs(WrapUserQuery(text), CloseQuery(), |OpenQuery()|, |OpenQuery()| + 1 + end);
  }

  lemma ExtractCut(text: string, end: nat)
    requires Find(text, CloseQuery()) == Some(end)
    ensures QueryText(WrapUserQuery(text)) == Trim(text[..end])
  {
    var s, from := WrapUserQuery(text), |OpenQuery()|;
    OpenQueryAt(text);
    CutCloseAt(text, end);
    assert s[from..from + 1 + end] == "\n" + text[..end] + [];
    TrimSpaced("\n", text[..end], []);
  }

  /** Extracting from a wrapped query gives the query back, up to its first closing
      tag, less injected blocks and surrounding white space. */
  lemma ExtractWrapped(text: string)
    ensures ExtractUserQuery(WrapUserQuery(text)) == StripSystemTags(Trim(UpToClose(text)))
  {
    ExtractUpToClose(text);
  }

  lemma ExtractUpToClose(text: string)
    ensures QueryText(WrapUserQuery(text)) == Trim(UpToClose(text))
  {
    match Find(text, CloseQuery()) {
      case None => ExtractWhole(text);
      case Some(end) => ExtractCut(text, end);
    }
  }

  // ------------------------------------------------------ joined text

  lemma {:induction false} TextsConcat(a: seq<ContentPart>, b: seq<ContentPart>)
    ensures TextsOf(a + b) == TextsOf(a) + TextsOf(b)
  {
    if a == [] {
      assert a + b == b;
    } else {
      assert (a + b)[1..] == a[1..] + b;
      TextsConcat(a[1..], b);
    }
  }

  lemma {:induction false} JoinedConcat(a: seq<string>, b: seq<string>)
    requires a != [] && b != []
    ensures Joined(a + b) == Joined(a) + "\n" + Joined(b)
  {
    if |a| > 1 {
      assert (a + b)[1..] == a[1..] + b;
      JoinedConcat(a[1..], b);
    } else {
      assert (a + b)[1..] == b;
    }
  }

  /** Texts on both sides are joined by a newline, and parts without text add none. */
  lemma JoinedTextConcat(a: seq<ContentPart>, b: seq<ContentPart>)
    ensures TextsOf(a) != [] && TextsOf(b) != [] ==> JoinedText(a + b) == JoinedText(a) + "\n" + JoinedText(b)
    ensures TextsOf(a) == [] ==> JoinedText(a + b) == JoinedText(b)
    ensures TextsOf(b) == [] ==> JoinedText(a + b) == JoinedText(a)
  {
    TextsConcat(a, b);
    EmptyRight(TextsOf(a));
    EmptyRight(TextsOf(b));
    if TextsOf(a) != [] && TextsOf(b) != [] {
      JoinedConcat(TextsOf(a), TextsOf(b));
    }
  }

  // ------------------------------------------------------ plain text

  /** A user text without a query tag and without injected blocks is extracted as it
      is, trimmed. */
  lemma PlainIsTrimmed(text: string)
    requires !Contains(text, OpenQuery()) && NoBlocks(text, SystemTags(), 11)
    ensures ExtractUserQuery(text) == Trim(text)
  {
    StripKeepsLengthIff(text, SystemTags(), 11);
  }

  lemma OneText(text: string)
    ensures JoinedText([Text(text)]) == text
  {
    assert [Text(text)][1..] == [];
    assert TextsOf([]) == [];
  }

  /** Such a text opens a real user turn unless it is one of the synthetic ones. */
  lemma PlainTurn(text: string)
    requires !Contains(text, OpenQuery()) && NoBlocks(text, SystemTags(), 11)
    ensures IsRealUserTurn(User([Text(text)], None)) <==> !IsSyntheticExtractedQuery(Trim(text))
  {
    PlainIsTrimmed(text);
    OneText(text);
    OneTextTurn(User([Text(text)], None), text, Trim(text));
  }

  /** The empty text, the sentinel and the automatic prompt open no real turn. */
  lemma SyntheticTexts()
    ensures IsSyntheticExtractedQuery("") && IsSyntheticExtractedQuery("__auto_continue__")
    ensures IsSyntheticExtractedQuery(AUTO_CONTINUE_PROMPT)
  {}

  lemma OneTextTurn(item: Item, text: string, query: string)
    requires item.User? && item.synthetic.None? && item.parts == [Text(text)] && JoinedText(item.parts) == text
    requires ExtractUserQuery(text) == query
    ensures IsRealUserTurn(item) <==> !IsSyntheticExtractedQuery(query)
  {
    TurnByText(item, query);
  }

  lemma TurnByText(item: Item, query: string)
    requires item.User? && item.synthetic.None? && forall k :: 0 <= k < |item.parts| ==> !item.parts[k].Image?
    requires ExtractUserQuery(JoinedText(item.parts)) == query
    ensures IsRealUserTurn(item) <==> !IsSyntheticExtractedQuery(query)
  {}

  lemma ImageTurnsAreReal(item: Item)
    ensures item.User? && item.synthetic.None? && (exists k :: 0 <= k < |item.parts| && item.parts[k].Image?) ==>
              IsRealUserTurn(item)
    ensures !item.User? || item.synthetic.Some? ==> !IsRealUserTurn(item)
  {}
}
