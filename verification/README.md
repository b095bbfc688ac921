# Verified models of a terminal agent's core

The repository is a Rust terminal agent. This project models its
self-contained cores in Dafny and proves what their callers rely on:

- **Conversation repair and compaction** (`Conversation`, `Repair`,
  `Positions`, `Displaced`, `History`, `RepairTheorems`, `Layout`, `Sanitize`, `Budget`,
  `Fitting`, `Strings`, `Summary`, `SummaryFormat`, `Stripping`, `UserQuery`,
  `Compaction`, `Recompaction`): passes that rewrite a chat log so that every tool
  call is paired with its result, fit it to a token budget, and rebuild it around
  a summary, once or again.
- **Event-driven terminal waits** (`Wait`, `RawTail`): a feeder, resizers and
  waiters around a generation counter, as interleaved atomic steps.
- **Incremental code index** (`Coalesce`, `CommandLoop`, `Refinement`): file
  events coalesced per path and drained from a command channel.
- **String interner** (`Interner`): one byte arena with 32- and 16-bit offsets
  and hash buckets.
- **Line-buffered reader** (`LineReader`): a reader that cuts a byte stream into
  lines, a channel, and a poll that serves the lines in pieces.
- **Worktree garbage collection** (`Gc`): a sweep and a guarded pass over a
  record database and a disk that others change.
- **Billing ledger** (`Usage`), **crash blobs** (`LittleEndian`, `Utf8Bytes`,
  `CrashFormat`, `CrashHandler`) and **segment files** (`Segments`).

Code that changes things step by step is modelled by methods, loops and classes
proved against specification functions; the theorems are lemmas about those
functions. Run `dafny verify dfyconfig.toml` to check everything.

## What the proofs found

Some properties that the code or its comments suggest do not hold for all
inputs. In each case the code is modelled as it is, a lemma names an input, and
a condition is proved for when the property holds: "exactly" below means both
directions.

- One repair is not enough when an assistant declares the same id twice and
  nothing in its run answers it: two synthetic results with one id are inserted,
  which a second repair then removes. Repair pairs every call, and is
  idempotent, exactly when no such id exists (`RepairTheorems`).
- The comment at `crates/codegen/ptyctl/src/wait.rs:120` calls the grid final
  once the sender is gone. A resize after that still changes the grid and can no
  longer bump, so a wait can report "ended" while its condition holds
  (`Wait.EndedCanBeWrong`). The report is right, for every condition that was
  false at the last check, exactly when the grid was not resized since that check
  (`Wait.EndedIsRightIff`). In the same way the comment at
  `crates/codegen/ptyctl/src/wait.rs:138` rules out updates once the sender is
  gone, yet a stability wait can then match a grid that a resize changed within
  its window (`Wait.StableCanBeWrong`); with nothing unseen and no feed pending,
  the grid is unchanged exactly when it was not resized since the window opened
  (`Wait.StableIsRightIff`).
- Coalescing drops a creation or change that is followed by a removal. When the
  file was indexed before the batch, its old entry then stays. The refinement
  holds exactly when no already indexed path is cancelled (`Coalesce`,
  `Refinement`).
- The interner cuts lengths to 16 bits: while arena and ids are below 2^32, a new
  string reads back, and interns to one id, exactly when it is shorter than 2^16
  bytes (`Interner`).
- The comment at `crates/codegen/xai-chat-state/src/compaction_utils.rs:257` says
  that every block of a known tag is removed. The tags are removed one after
  another, and a removal can put an earlier tag together, whose block then stays
  (`Stripping.RemovalCanUncover`). One removal brings out a block exactly when a
  tag is put together across its cut (`Stripping.CutUncoversIff`), which cannot
  happen when the text nowhere breaks off a tag with an opening bracket
  (`Stripping.StrippedHasNoBlocks`). After the call no block is left exactly when
  stripping again changes nothing (`Stripping.StrippedAgainIff`).
- A prompt of an image alone is meant to anchor the compaction boundary
  (`crates/codegen/xai-chat-state/src/compaction_utils.rs:344-346`). The compacted
  history holds its empty query as text, which is no real user turn any more
  (`Recompaction.ImagePromptIsLost`). A query survives compaction exactly when it
  is not synthetic and holds no closing tag and no injected block
  (`Recompaction.QuerySurvivesIff`).
- A rewrite of the crash file that is cut short after its thirtieth byte leaves
  a file that does not parse at all, although the first blob was complete
  (`CrashHandler.TornRewrite`).
- The segment cap does not charge the newlines between turns, so a document can
  exceed it (`Segments.CapCanBeExceeded`), by at most one byte per pair of
  neighbouring turns (`Segments.OverByAtMostSeparators`). `Segments.WithinCapIff`
  says exactly when it does not.
- Costs saturate at both ends of 64 bits, so the order of folds can matter
  (`Usage.CostOrderCanMatter`). It does not exactly when no cost is negative, none
  is positive, or neither the positive nor the negative costs saturate by
  themselves (`Usage.CostOrderFreeIff`, per model `Usage.EntryOrderFreeIff`);
  ledgers fed by recorded calls are of the first kind (`Usage.NestedIsBilled`).
- The garbage collector's re-check guards the path in the row it reads again but
  removes the path it listed before. The check protects the tree exactly when the
  path read again covers the listed one (`Gc.AttemptsProtectedIff`,
  `Gc.CoversIff`). The repository's own writers keep it so: they stamp a row with
  the time, or derive its id from its path (`Gc.AttemptsAreVacant`). It takes a row
  written directly, with another path under the same id and an old time, to have
  an occupied tree removed (`Gc.MovedRowIsNotGuarded`).
- The guards are checked for the worktree that is removed, not for those inside
  it: a guarded worktree below an expired one loses its tree
  (`Gc.NestedTreeGoes`). In a world at rest where removals succeed, every worktree
  to be spared keeps its tree exactly when none lies at or below a doomed one
  (`Gc.SparedTreesStayIff`).
- Removing a worktree unregisters it in the default database, whichever
  database the collection was given (`Gc.RowStaysElsewhere`). A real run drops the
  right rows exactly when the database is the default one or no row present is
  doomed (`Gc.CollectsExactly`).

## Model

| member | source | states |
|---|---|---|
| `RepairTheorems.RepairPairsEveryCall` | `crates/codegen/xai-chat-state/src/compaction_utils.rs:964-995` | After one repair every declared call has exactly one result, in the run after its assistant, and no other result remains, if and only if every id an assistant declares twice already had a result in that run. |
| `RepairTheorems.RepairIdempotentIff` | `crates/codegen/xai-chat-state/src/compaction_utils.rs:964-995` | A second repair changes nothing if and only if the same condition holds of the input. |
| `RepairTheorems.TwinsNeedTwoRepairs` | `crates/codegen/xai-chat-state/src/compaction_utils.rs:964-995` | A concrete history, one assistant declaring one id twice unanswered, on which one repair leaves duplicate results and a second repair still changes something. |
| `RepairTheorems.SecondRepairSettles` | `crates/codegen/xai-chat-state/src/compaction_utils.rs:964-995` | From any conversation two repairs reach a correctly paired history that further repairs leave alone. |
| `RepairTheorems.RepairFixesOnlyPaired` | `crates/codegen/xai-chat-state/src/compaction_utils.rs:964-995` | Repair is the identity exactly on the histories that already satisfy the pairing rule. |
| `RepairTheorems.RepairKeepsOtherItems` | `crates/codegen/xai-chat-state/src/compaction_utils.rs:964-995` | Every item that is not a tool result survives repair, in order. |
| `RepairTheorems.RepairedTurnResults` | `crates/codegen/xai-grok-sampling-types/src/conversation.rs:2784-2844` | The results of a repaired turn are exactly the last original result of each declared id and one synthetic result per call that had none. |
| `Layout.RepairIsLaidOut` | `crates/codegen/xai-chat-state/src/compaction_utils.rs:970-995` | On positions of the original history: the repaired one consists of every item that is not a result and the last result of each id in its owner's run, at increasing positions, and after each run one answer for each call without any, in call order; and of nothing else. |
| `Layout.RepairIffLaidOut` | `crates/codegen/xai-chat-state/src/compaction_utils.rs:970-995` | That description holds of the repaired history and of no other. |
| `RepairTheorems.ReportTellsTheTruth` | `crates/codegen/xai-chat-state/src/compaction_utils.rs:947-962` | The report says that nothing changed exactly when the history was already correctly paired. |
| `Repair.ThenIsComposition` | `crates/codegen/xai-chat-state/src/compaction_utils.rs:970-995` | Running one pass after another equals one pass with the two rules composed, turn by turn, so the three passes can be reasoned about one run at a time. |
| `Repair.PassPreservesOtherItems` | `crates/codegen/xai-chat-state/src/compaction_utils.rs:970-995` | Any pass that rewrites only result runs keeps all other items in order. |
| `Repair.KeepLastKeepsTheLast` | `crates/codegen/xai-grok-sampling-types/src/conversation.rs:2911-2966` | Deduplication keeps, of several results for one id in a run, exactly the last. |
| `Repair.RepairedHistory` | `crates/codegen/xai-chat-state/src/compaction_utils.rs:970-995` | Turn by turn, the three passes leave a correctly paired history if and only if there was no unanswered twin, never leave one, and change nothing if and only if it was paired already. |
| `Positions.WellPairedByPosition` | `crates/codegen/xai-chat-state/src/compaction_utils.rs:964-969` | The turn-by-turn pairing rule is the same as the rule stated on positions of the flat history, both directions. |
| `Positions.NoUnansweredTwinsByPosition` | `crates/codegen/xai-chat-state/src/compaction_utils.rs:964-969` | The turn-by-turn twin condition is the same as its position-wise statement over the flat history. |
| `History.Transcript.RepairHistory` | `crates/codegen/xai-chat-state/src/compaction_utils.rs:970-995` | The in-place repair equals the specification, and final length is initial minus duplicates minus stripped plus synthetic. |
| `History.Transcript.DedupDuplicateToolResults` | `crates/codegen/xai-grok-sampling-types/src/conversation.rs:2911-2966` | The in-place scan with its re-scan after removal equals the dedup pass and returns the number removed. |
| `History.Transcript.RemoveMarked` | `crates/codegen/xai-grok-sampling-types/src/conversation.rs:2948-2959` | Removing the marked positions from the highest down removes exactly the earlier duplicates of the run. |
| `History.Transcript.StripDisplacedToolResults` | `crates/codegen/xai-chat-state/src/compaction_utils.rs:996-1022` | The retain loop with its set of open ids equals the strip pass and returns the dropped ids in order. |
| `History.Transcript.RepairDanglingToolCalls` | `crates/codegen/xai-grok-sampling-types/src/conversation.rs:2784-2844` | Scan then splice in reverse equals the backfill pass and returns the number of results inserted. |
| `History.Transcript.ApplyRepairs` | `crates/codegen/xai-grok-sampling-types/src/conversation.rs:2838-2843` | Splicing the blocks in from the last position to the first puts each block where the scan meant it. |
| `History.FindRepairs` | `crates/codegen/xai-grok-sampling-types/src/conversation.rs:2788-2836` | The forward scan finds positions and blocks whose splicing is exactly the backfill pass, whose answers stand where `Layout.RepairIsLaidOut` says. |
| `History.MarkDuplicates` | `crates/codegen/xai-grok-sampling-types/src/conversation.rs:2934-2945` | The marked positions are exactly those whose id comes again later in the run. |
| `Displaced.ScanIsStripPass` | `crates/codegen/xai-chat-state/src/compaction_utils.rs:996-1022` | The single scan that carries the open ids computes the same history as the run-by-run definition. |
| `Displaced.StripKeepsExactlyOwned` | `crates/codegen/xai-chat-state/src/compaction_utils.rs:996-1022` | Stripping keeps, in order, every item except the tool results outside the run of the assistant that declares them. |
| `Sanitize.ValidateCompactedHistory` | `crates/codegen/xai-chat-state/src/compaction_utils.rs:881-915` | The read-only scan returns the unmatched ids of the specification. |
| `Sanitize.SanitizeCompactedHistory` | `crates/codegen/xai-chat-state/src/compaction_utils.rs:917-944` | The filtering scan returns the matched items and exactly the ids that validation reports. |
| `Sanitize.ScansMeetTheRule` | `crates/codegen/xai-chat-state/src/compaction_utils.rs:881-944` | Both scans agree with the rule on positions: reported and dropped are exactly the results no earlier assistant declares. |
| `Sanitize.ValidMeansCalledBefore` | `crates/codegen/xai-chat-state/src/compaction_utils.rs:881-915` | A history validates if and only if every result has a matching call somewhere before it. |
| `Sanitize.SanitizedValidates` | `crates/codegen/xai-chat-state/src/compaction_utils.rs:917-944` | A sanitized history validates. |
| `Sanitize.SanitizeFixesOnlyValid` | `crates/codegen/xai-chat-state/src/compaction_utils.rs:917-944` | Sanitizing is the identity exactly on valid histories. |
| `Sanitize.OwnedIsCalledBefore` | `crates/codegen/xai-chat-state/src/compaction_utils.rs:996-1022` | A result in its owner's run always has its call before it: the contiguous rule is the stronger one. |
| `Sanitize.StripIsStronger` | `crates/codegen/xai-chat-state/src/compaction_utils.rs:996-1022` | Stripping gives the same history with or without sanitizing first, and a stripped history always validates. |
| `Sanitize.RepairedValidates` | `crates/codegen/xai-chat-state/src/compaction_utils.rs:970-995` | A repaired history validates, whatever it was before. |
| `Budget.FitConversationToBudget` | `crates/codegen/xai-chat-state/src/compaction_utils.rs:128-161` | The greedy loops compute the fit whose result the rows of `Fitting` state in plain numbers. |
| `Budget.ScanBack` | `crates/codegen/xai-chat-state/src/compaction_utils.rs:141-150` | The backward scan stops at the start of the specified suffix. |
| `Budget.RecoverTruncatedTailUnit` | `crates/codegen/xai-chat-state/src/compaction_utils.rs:163-194` | Popping the trailing results, finding their owner and truncating each to its share computes the specified tail unit. |
| `Budget.FittedStaysPaired` | `crates/codegen/xai-chat-state/src/compaction_utils.rs:128-194` | If every result of the input sits in its owner's run, so does every result of the output, in the suffix branch and in the truncated-tail branch. |
| `Fitting.FittedIsPaired` | `crates/codegen/xai-chat-state/src/compaction_utils.rs:128-194` | If the input satisfies the whole pairing rule, every result owned and every call answered once, so does the output, whatever the budget and the branch. |
| `Fitting.FittedRepairIsPaired` | `crates/codegen/xai-chat-state/src/compaction_utils.rs:128-194` | Repairing and then fitting gives a paired history for every conversation in which no id declared twice in one item is unanswered. |
| `Fitting.FittedIsEnd` | `crates/codegen/xai-chat-state/src/compaction_utils.rs:128-194` | What fitting leaves of a longer conversation is the system item and the end of the rest, item by item with the same calls and answers; only texts may differ. |
| `Budget.SystemStaysFirst` | `crates/codegen/xai-chat-state/src/compaction_utils.rs:128-141` | A leading system item stays first for every budget, and a conversation within the budget is unchanged. |
| `Fitting.FittedIsLongest` | `crates/codegen/xai-chat-state/src/compaction_utils.rs:128-161` | Over the limit, the output is the system item and everything from the first position on that does not begin with a result and costs nothing or fits the limit with the system item; the tail is cut only when there is no such position. |
| `Fitting.AffordableIsKept` | `crates/codegen/xai-chat-state/src/compaction_utils.rs:141-160` | Every end of the conversation that does not begin with a result and fits the limit together with the system item is an end of the output. |
| `Fitting.TailIsShared` | `crates/codegen/xai-chat-state/src/compaction_utils.rs:163-194` | With no such position and results at the end, the output is the system item, the assistant right before the results when it made calls, and each of the results cut to an equal share of what those leave of the limit, at least one token. |
| `Fitting.LastIsCut` | `crates/codegen/xai-chat-state/src/compaction_utils.rs:163-177` | With no such position and no result at the end, the output is the system item and the last item cut to what that leaves of the limit. |
| `Fitting.ItemIsCut` | `crates/codegen/xai-chat-state/src/compaction_utils.rs:195-240` | Cutting an item to a number of tokens: each text of at most four bytes a token stays; a longer one keeps as many first characters as leave 64 bytes for the note, which names the exact number of bytes dropped; everything else stays. |
| `Fitting.CostOfItem` | `crates/codegen/xai-chat-state/src/actor/state.rs:42-79` | An item costs a token for every four whole bytes of its texts and arguments, and 765 for each image of a user. |
| `Budget.KeptSuffixIsLongest` | `crates/codegen/xai-chat-state/src/compaction_utils.rs:141-160` | The same in the terms of the code: the longest suffix within the budget, less only its leading results. |
| `Budget.SuffixBranchFits` | `crates/codegen/xai-chat-state/src/compaction_utils.rs:141-160` | In the suffix branch the total cost is at most the larger of the limit and the system item. |
| `Budget.TailBranchFits` | `crates/codegen/xai-chat-state/src/compaction_utils.rs:163-194` | In the tail branch, for every conversation, the cost is at most that of the system item plus, when the body ends in results, the owner, the larger of the rest of the budget and sixteen tokens a result, and what the items may take past their share; otherwise the larger of the budget and sixteen tokens and what the single last item may take past it. |
| `Budget.ShortResultsFit` | `crates/codegen/xai-chat-state/src/compaction_utils.rs:163-194` | Results under 10^8 bytes take nothing past their share, so for them the owner, the rest of the budget and sixteen tokens a result are the whole bound. |
| `Budget.TruncatedItemCost` | `crates/codegen/xai-chat-state/src/compaction_utils.rs:196-223` | A truncated item of any kind costs at most the larger of its share and sixteen tokens, plus its uncut parts, its images, a share for each further text part and the digits of the marker beyond eight. |
| `Budget.TruncatedTextIsLongestCut` | `crates/codegen/xai-chat-state/src/compaction_utils.rs:225-240` | A truncated text is a prefix cut between characters, as long as the marker allows, plus a marker that names the exact number of dropped bytes. |
| `Budget.TruncatedTextFits` | `crates/codegen/xai-chat-state/src/compaction_utils.rs:225-240` | With fewer than 10^8 dropped bytes the result is at most the larger of the limit and 64 bytes. |
| `Budget.TruncatedTextSize` | `crates/codegen/xai-chat-state/src/compaction_utils.rs:225-240` | For any text that is cut: its size exceeds the larger of the limit and 64 bytes by at most the digits of the dropped count beyond eight; it is within the limit exactly when the kept prefix leaves room for the marker with its digits; under 64 bytes only the marker is left. |
| `Budget.TruncateTextToBytes` | `crates/codegen/xai-chat-state/src/compaction_utils.rs:225-240` | The loop back to a character boundary computes the specified cut. |
| `Budget.TruncateItemToTokens` | `crates/codegen/xai-chat-state/src/compaction_utils.rs:196-223` | Truncating an item touches only the text of results and the text parts of user items, as specified. |
| `Budget.TruncatedResultCost` | `crates/codegen/xai-chat-state/src/compaction_utils.rs:196-223` | A truncated result of any size costs at most the larger of its share and sixteen tokens plus the digits of the marker beyond eight, which are none under 10^8 bytes. |
| `Utf8.LongestPrefixIsLongest` | `crates/codegen/xai-chat-state/src/compaction_utils.rs:225-240` | No prefix within the byte limit is longer than the one kept. |
| `Utf8.LastBoundary` | `crates/codegen/xai-chat-state/src/compaction_utils.rs:230-236` | Stepping back to the last character boundary finds that longest prefix. |
| `SummaryFormat.FormatCompactSummary` | `crates/codegen/xai-chat-state/src/compaction_utils.rs:625-663` | The loops over analysis blocks terminate with all slices in range and compute the specified seed. |
| `SummaryFormat.FinishFormat` | `crates/codegen/xai-chat-state/src/compaction_utils.rs:649-663` | Unwrapping, neutralizing and collapsing blank lines computes the specified clean text. |
| `SummaryFormat.FormattedIsInert` | `crates/codegen/xai-chat-state/src/compaction_utils.rs:625-700` | For every reply the seed holds none of the six control tags and no run of three newlines. |
| `SummaryFormat.FormatIdempotent` | `crates/codegen/xai-chat-state/src/compaction_utils.rs:625-700` | Cleaning a cleaned seed changes nothing. |
| `SummaryFormat.WellFormedReply` | `crates/codegen/xai-chat-state/src/compaction_utils.rs:625-689` | A reply of an analysis block and a summary block that leads with a numbered section, decorated such as `## 1.` or not, becomes the heading and that section: nothing of the analysis stays, nothing of the body is lost. |
| `SummaryFormat.ProseReply` | `crates/codegen/xai-chat-state/src/compaction_utils.rs:625-686` | The same for a summary block of prose; and when the block holds a closing analysis tag, everything up to the last one goes. |
| `SummaryFormat.UntaggedReply` | `crates/codegen/xai-chat-state/src/compaction_utils.rs:625-672` | A reply without an analysis or summary tag is only cleaned. |
| `SummaryFormat.UnclosedAnalysis` | `crates/codegen/xai-chat-state/src/compaction_utils.rs:638-644` | An analysis block that is never closed takes everything up to the summary tag. |
| `SummaryFormat.AnalysisAlone` | `crates/codegen/xai-chat-state/src/compaction_utils.rs:627-644` | Without a summary tag, an analysis tag with something visible before it stays; else, never closed, it takes everything after it. |
| `SummaryFormat.UndraftedText` | `crates/codegen/xai-chat-state/src/compaction_utils.rs:674-686` | A text that holds no closing analysis tag stays as it is, but for a summary tag that it begins with. |
| `SummaryFormat.DecorationDoesNotMatter` | `crates/codegen/xai-chat-state/src/compaction_utils.rs:676-677` | Headings, emphasis, bullets and quotes before a section number do not matter to what counts as numbered, and without them a digit does. |
| `Summary.NeutralizedHasNoTags` | `crates/codegen/xai-chat-state/src/compaction_utils.rs:691-700` | The neutralized text holds none of the six tags. |
| `Summary.NeutralizeIdempotent` | `crates/codegen/xai-chat-state/src/compaction_utils.rs:691-700` | Neutralizing twice is neutralizing once. |
| `Summary.NeutralizeOnlyInserts` | `crates/codegen/xai-chat-state/src/compaction_utils.rs:691-700` | The neutralizer only inserts zero-width spaces: deleting insertions gives the input back. |
| `Summary.CollapseIsOnePass` | `crates/codegen/xai-chat-state/src/compaction_utils.rs:668-670` | Collapsing again and again is one pass that drops every newline after two in a row and nothing else. |
| `Summary.CleanLeavesNothingLive` | `crates/codegen/xai-chat-state/src/compaction_utils.rs:658-662` | Neutralizing, collapsing newlines and trimming together leave no tag: no later step brings one back. |
| `Summary.CleanFixesCleanText` | `crates/codegen/xai-chat-state/src/compaction_utils.rs:658-662` | Text without tags, runs of three newlines or outer white space is unchanged. |
| `Stripping.StripSystemTagsLoop` | `crates/codegen/xai-chat-state/src/compaction_utils.rs:259-272` | The nested removal loops terminate for every text and compute the stripping whose effect the following rows state. |
| `Stripping.KnownTags` | `crates/codegen/xai-chat-state/src/compaction_utils.rs:240-252` | The eleven tags by name. |
| `Stripping.StrippedHasNoBlocks` | `crates/codegen/xai-chat-state/src/compaction_utils.rs:253-272` | When no beginning of one of the 22 opening and closing tags is broken off by an opening bracket, the result has no block of any of the eleven tags. |
| `Stripping.ApartIsUninterrupted` | `crates/codegen/xai-chat-state/src/compaction_utils.rs:253-272` | That is so, in particular, when between any two opening brackets of the text there is a closing one. |
| `Stripping.RemovalCanUncover` | `crates/codegen/xai-chat-state/src/compaction_utils.rs:253-272` | A concrete text, one tag written inside the opening of another, on which a block of the first tag is put together by a later removal and stays. |
| `Stripping.StrippedAgainIff` | `crates/codegen/xai-chat-state/src/compaction_utils.rs:253-272` | For every text, stripping a second time changes nothing if and only if the first result has no block of any of the eleven tags. |
| `Stripping.LastTagGone` | `crates/codegen/xai-chat-state/src/compaction_utils.rs:259-272` | For every text the tag that is removed last has no block left, trimming included. |
| `Stripping.CutUncoversIff` | `crates/codegen/xai-chat-state/src/compaction_utils.rs:259-272` | For every text and any part taken out of it: where there was no block of a tag, there is one afterwards if and only if its opening or closing tag is put together across the cut. |
| `Stripping.StripUncoversNothing` | `crates/codegen/xai-chat-state/src/compaction_utils.rs:259-272` | Removing all blocks of one tag neither breaks off nor brings out a block of another tag that was not broken off before. |
| `UserQuery.ExtractWrapped` | `crates/codegen/xai-chat-state/src/compaction_utils.rs:280-292` | For every text, extracting from the wrapped query gives the text up to its first closing tag (all of it when there is none), trimmed and without injected blocks. |
| `UserQuery.PlainIsTrimmed` | `crates/codegen/xai-chat-state/src/compaction_utils.rs:280-292` | A text without a query tag and without injected blocks is extracted as it is, trimmed. |
| `UserQuery.PlainTurn` | `crates/codegen/xai-chat-state/src/compaction_utils.rs:334-365` | Such a text opens a real user turn if and only if, trimmed, it is none of the synthetic texts. |
| `UserQuery.SyntheticTexts` | `crates/codegen/xai-chat-state/src/compaction_utils.rs:328-333` | The empty text, the sentinel and the automatic prompt open no real turn. |
| `UserQuery.ImageTurnsAreReal` | `crates/codegen/xai-chat-state/src/compaction_utils.rs:334-365` | A user item with an image that nothing marks as synthetic opens a real turn whatever its text; a marked one or another item never does. |
| `UserQuery.JoinedTextConcat` | `crates/codegen/xai-chat-state/src/compaction_utils.rs:350-365` | The text of an item is that of its text parts with a newline between each two; other parts add nothing. |
| `Compaction.TailStartIsLast` | `crates/codegen/xai-chat-state/src/compaction_utils.rs:444-464` | The compaction boundary is just after the last real user turn. |
| `Compaction.MessagesByPosition` | `crates/codegen/xai-chat-state/src/compaction_utils.rs:444-464` | The carried messages are every assistant and every result after the last real user turn, in order, results with a placeholder and without images, and nothing else. |
| `Compaction.BuildCompactedHistory` | `crates/codegen/xai-chat-state/src/compaction_utils.rs:828-863` | Item by item: the system item, the prefix, the project instructions and the wrapped query when given, the recent messages, then one item whose text is the announcement followed by the formatted summary and exactly the hint, and the reminder when given; nothing else. |
| `Compaction.CarryingKeepsTheVerdict` | `crates/codegen/xai-chat-state/src/compaction_utils.rs:444-464` | Omitting synthetic user items from the carried tail changes no validation verdict. |
| `Compaction.CompactedVerdict` | `crates/codegen/xai-chat-state/src/compaction_utils.rs:828-863` | A compacted history has exactly the violations of the tail it carries. |
| `Compaction.CompactedHistoryValidates` | `crates/codegen/xai-chat-state/src/compaction_utils.rs:444-464` | End to end, for any conversation: the compacted history validates if and only if every result after the last real user turn answers a call made after that turn and before it. |
| `Recompaction.RecompactionCarries` | `crates/codegen/xai-chat-state/src/compaction_utils.rs:444-464` | For every conversation, a second compaction carries exactly the messages that the first one carried, and rereads its query. |
| `Recompaction.QuerySurvivesIff` | `crates/codegen/xai-chat-state/src/compaction_utils.rs:391-397` | A compacted history yields the query it was built with if and only if there is none, or it is not empty or another synthetic text and holds no closing tag and no injected block. |
| `Recompaction.RecompactionIff` | `crates/codegen/xai-chat-state/src/compaction_utils.rs:828-863` | Under exactly that condition, compacting a compacted history gives what compacting the conversation itself gives, in any frame and for any summary. |
| `Recompaction.ImagePromptIsLost` | `crates/codegen/xai-chat-state/src/compaction_utils.rs:344-365` | A prompt of an image alone is a real user turn with an empty query, and the compacted history has no real user turn any more. |
| `Wait.StepKeepsInv` | `crates/codegen/ptyctl/src/wait.rs:97-128` | Every atomic step of the feeder, the resizer and the waiters keeps the protocol invariant. |
| `Wait.MatchSawTrue` | `crates/codegen/ptyctl/src/wait.rs:97-116` | In every reachable state a condition wait that has matched saw its condition true on a grid that the present one has grown from. |
| `Wait.CheckDecides` | `crates/codegen/ptyctl/src/wait.rs:100-116` | A check matches exactly when the condition holds on the grid of that moment, and else the waiter sleeps. |
| `Wait.WokenMatches` | `crates/codegen/ptyctl/src/wait.rs:97-128` | A waiter with an unseen bump while its condition holds matches in three steps of its own when nobody comes between. |
| `Wait.TimerDecides` | `crates/codegen/ptyctl/src/wait.rs:122-128` | A stability wait whose window ends by the deadline matches as soon as it closes, whatever the sender; any other wait ends unmatched at its deadline and not before. |
| `Wait.QuietWindowMatches` | `crates/codegen/ptyctl/src/wait.rs:131-165` | A stability wait whose window fits before its deadline matches when nothing happens but the passing of time. |
| `Wait.StableMatchIsStable` | `crates/codegen/ptyctl/src/wait.rs:131-165` | A stability match with nothing unseen, no feed pending and no resize since the mark means that no update came for a whole window. |
| `Wait.GoneIsNoticed` | `crates/codegen/ptyctl/src/wait.rs:117-165` | When the sender goes with nothing unseen, a condition wait ends at once, and so does a stability wait at its deadline; before that it opens one more window. |
| `Wait.BumpIsNoticed` | `crates/codegen/ptyctl/src/wait.rs:117-165` | A sleeping wait is told of a bump it has not seen and looks again, but for a stability wait whose deadline has come, which ends as a plain timeout. |
| `Wait.NoLostWakeup` | `crates/codegen/ptyctl/src/wait.rs:97-128` | In every reachable state with the sender alive, a sleeping waiter with nothing unseen and no writer between change and bump has its condition false on the current grid. |
| `Wait.TrueConditionWakes` | `crates/codegen/ptyctl/src/session.rs:158-173` | A waiter asleep while its condition holds can be woken now, or the next steps of a writer bump the generation. |
| `Wait.SleepingSawFalse` | `crates/codegen/ptyctl/src/wait.rs:102-128` | In every reachable state a sleeping waiter saw its condition false on the grid of its last check, and the grid has only been added to since. |
| `Wait.EndedIsRightIff` | `crates/codegen/ptyctl/src/wait.rs:117-122` | In every reachable state in which a wait is about to report ended: the report is right for every condition that was false at the last check if and only if the grid was not resized since that check. |
| `Wait.EndedCanBeWrong` | `crates/codegen/ptyctl/src/session.rs:272-283` | A run in which the wait reports ended although its condition holds on the final grid: the sender was dropped, then a resize could no longer bump. |
| `Wait.OutcomesAreHonest` | `crates/codegen/ptyctl/src/wait.rs:131-165` | A stability match means a whole window passed since its last mark and ended by the deadline, a plain timeout comes only at the deadline, ended only when the sender is gone. |
| `Wait.StableMeansUnchanged` | `crates/codegen/ptyctl/src/wait.rs:131-165` | While the sender is alive and a stability waiter sleeps with nothing unseen or pending, the grid is what it was when its window opened. |
| `Wait.StableIsRightIff` | `crates/codegen/ptyctl/src/wait.rs:131-165` | Whether or not the sender is alive: with nothing unseen and no feed about to bump, the grid is what it was when the window opened if and only if it was not resized since. |
| `Wait.StableCanBeWrong` | `crates/codegen/ptyctl/src/session.rs:272-283` | A run in which a stability wait that knows the sender to be gone matches although a resize changed the grid within its window. |
| `RawTail.Tail.Push` | `crates/codegen/ptyctl/src/wait.rs:202-213` | After a push the tail is the last 2048 bytes of the old tail and the new bytes, in each branch. |
| `RawTail.FeedAll` | `crates/codegen/ptyctl/src/wait.rs:202-213` | Feeding chunk after chunk leaves what pushing them one by one is specified to leave, which is the last 2048 bytes of the whole stream. |
| `RawTail.TailIsEndOfStream` | `crates/codegen/ptyctl/src/wait.rs:202-213` | However the output is cut into chunks, the tail is the last 2048 bytes of the stream, or all of it. |
| `Coalesce.CoalescedEvents.Add` | `crates/codegen/xai-codebase-graph/src/index_manager.rs:1531-1543` | Adding an event inserts its operations one by one, a rename as a removal and a creation. |
| `Coalesce.CoalescedEvents.InsertEntry` | `crates/codegen/xai-codebase-graph/src/index_manager.rs:1545-1569` | The entry edit follows the pairwise rules: cancel, replace, last writer wins. |
| `Coalesce.Survivor` | `crates/codegen/xai-codebase-graph/src/index_manager.rs:1531-1569` | For any operations, a path that ends in something other than a removal survives and reindexes; a path that ends removed survives as a removal or not at all. |
| `Coalesce.CoalescingPathByPath` | `crates/codegen/xai-codebase-graph/src/index_manager.rs:1133-1161` | Path by path, applying the coalesced map agrees with applying the operations one by one if and only if the path is not a stale cancel, and a stale cancel leaves the old entry. |
| `Coalesce.SequentialByLookup` | `crates/codegen/xai-codebase-graph/src/index_manager.rs:1133-1195` | What one-at-a-time processing leaves for an absolute path, by lookup: the parse after a last operation that is no removal, nothing after a removal, and what was there when nothing was done to it, it is unsupported, or a component below the root is hidden. |
| `Coalesce.RenameByLookup` | `crates/codegen/xai-codebase-graph/src/index_manager.rs:1531-1543` | After a rename the old path is gone from the index and the new one is read. |
| `Coalesce.CoalescingRefinesIff` | `crates/codegen/xai-codebase-graph/src/index_manager.rs:1531-1569` | The whole index agrees if and only if no path that is already indexed is cancelled, for every order of the survivors. |
| `Coalesce.OrderDoesNotMatter` | `crates/codegen/xai-codebase-graph/src/index_manager.rs:1133-1161` | The iteration order of the map does not change the resulting index. |
| `Coalesce.KeysAreDistinct` | `crates/codegen/xai-codebase-graph/src/index_manager.rs:1182-1190` | Two absolute paths never share an index key after the root prefix is stripped. |
| `CommandLoop.RunLoop` | `crates/codegen/xai-codebase-graph/src/index_manager.rs:797-831` | For every command sequence and every moment of sending, the loop does exactly what the commands up to the first shutdown ask for, in order: each other command once, on an index to which exactly the earlier file events were flushed, and nothing after a shutdown. |
| `CommandLoop.ProcessCommandCoalesced` | `crates/codegen/xai-codebase-graph/src/index_manager.rs:838-961` | One call handles a file command and everything it drained, and the command that ended the drain, and says stop only at a shutdown. |
| `CommandLoop.DrainAndFlush` | `crates/codegen/xai-codebase-graph/src/index_manager.rs:843-867` | A drain flushes exactly the file events received since the last flush, before the interrupting command is handled. |
| `CommandLoop.Receiver.Drain` | `crates/codegen/xai-codebase-graph/src/index_manager.rs:847-863` | Draining takes commands in channel order, coalesces each file event once, and stops at the first other command. |
| `CommandLoop.Worker.ApplyEntries` | `crates/codegen/xai-codebase-graph/src/index_manager.rs:1133-1161` | The map is applied entry by entry, each exactly once, in some order. |
| `CommandLoop.Worker.HandleOther` | `crates/codegen/xai-codebase-graph/src/index_manager.rs:872-961` | A command other than a file event takes its effect on the index once and is recorded once. |
| `CommandLoop.Worker.Refresh` | `crates/codegen/xai-codebase-graph/src/index_manager.rs:1099-1125` | A background refresh removes the deleted files, then reindexes the supported stale ones. |
| `CommandLoop.RefreshByLookup` | `crates/codegen/xai-codebase-graph/src/index_manager.rs:1099-1125` | After a refresh, by lookup: the parse for the key of a stale supported file, nothing for another deleted path, and what was there for any other. |
| `Refinement.LoopRefinesOneAtATime` | `crates/codegen/xai-codebase-graph/src/index_manager.rs:797-867` | Every index the loop shows equals the one that one-at-a-time processing of the same stream gives, if and only if no flush cancels a path the index already held. |
| `Refinement.EffectInStep` | `crates/codegen/xai-codebase-graph/src/index_manager.rs:838-867` | The same for a single flush or command, both directions. |
| `Refinement.StaleEntrySurvives` | `crates/codegen/xai-codebase-graph/src/index_manager.rs:1554-1557` | A concrete batch, an indexed file modified and then removed, after which the index still holds the file. |
| `Interner.InternRefines` | `crates/codegen/xai-codebase-graph/src/interner.rs:119-143` | For every hash function interning refines an injective string-to-id map: dense ids, the string reads back, old ids keep their meaning. |
| `Interner.LookupIsLinearScan` | `crates/codegen/xai-codebase-graph/src/interner.rs:157-167` | Lookup through the buckets agrees with a linear scan of the strings. |
| `Interner.RunHolds` | `crates/codegen/xai-codebase-graph/src/interner.rs:119-143` | After any run within the field widths the interner holds exactly the distinct strings in order of first appearance. |
| `Interner.ReadsBackIff` | `crates/codegen/xai-codebase-graph/src/interner.rs:119-143` | While arena and ids are below 2^32, a new string reads back if and only if it is shorter than 2^16 bytes. |
| `Interner.InternTwiceIff` | `crates/codegen/xai-codebase-graph/src/interner.rs:119-143` | While arena and ids are below 2^32, interning a new string twice gives one id if and only if it is shorter than 2^16 bytes. |
| `Interner.FromPartsIsSame` | `crates/codegen/xai-codebase-graph/src/interner.rs:286-303` | For every run within the field widths, rebuilding from the arena and offsets it serialized gives that interner, and under any other hash function the one the same run builds with it, finding every string where it first appeared. |
| `Interner.FromParts` | `crates/codegen/xai-codebase-graph/src/interner.rs:286-303` | The rebuilding loop computes the table of the specification for any parts, skipping entries out of range. |
| `Interner.StringInterner.InternBytes` | `crates/codegen/xai-codebase-graph/src/interner.rs:119-143` | The method changes arena, offsets and table exactly as specified and returns the id. |
| `Interner.StringInterner.GetBytesId` | `crates/codegen/xai-codebase-graph/src/interner.rs:157-167` | The bucket scan returns the specified id. |
| `Interner.StringInterner.Clear` | `crates/codegen/xai-codebase-graph/src/interner.rs:254-258` | Clearing gives the empty interner. |
| `LineReader.ReadLineCapped` | `crates/codegen/xai-acp-lib/src/line_reader.rs:140-177` | For every chunking the read gives the first line of the flat stream and leaves the rest, or the size error exactly when that line is over the cap, or the source's error when it ends in one before a newline. |
| `LineReader.FillOnce` | `crates/codegen/xai-acp-lib/src/line_reader.rs:145-176` | One turn of the loop either settles the line or moves the shown bytes to the buffer, with the cap checked before the newline. |
| `LineReader.RunReader` | `crates/codegen/xai-acp-lib/src/line_reader.rs:68-85` | The reader task sends the messages of the flat stream, independent of chunking. |
| `LineReader.SentLineByLine` | `crates/codegen/xai-acp-lib/src/line_reader.rs:68-85` | Every message is a non-empty line within the cap with its only newline last; only the last may be unterminated or a failure. |
| `LineReader.SentIsStream` | `crates/codegen/xai-acp-lib/src/line_reader.rs:68-85` | The lines sent are a prefix of the stream, and the whole stream when no failure is sent. |
| `LineReader.FailureIff` | `crates/codegen/xai-acp-lib/src/line_reader.rs:160-172` | The size error is sent if and only if some line of the stream is over the cap; the I/O error if and only if none is and the source ends in one. |
| `LineReader.CutUndoesJoin` | `crates/codegen/xai-acp-lib/src/line_reader.rs:140-177` | Cutting a stream joined from lines within the cap gives back exactly those lines, and the unterminated rest last. |
| `LineReader.LinesComeFirst` | `crates/codegen/xai-acp-lib/src/line_reader.rs:68-85` | Whatever follows and however the stream ends, whole lines within the cap are sent first, one by one. |
| `LineReader.RestDecides` | `crates/codegen/xai-acp-lib/src/line_reader.rs:140-177` | What is left then decides: a line over the cap fails with the size error; an unterminated rest within it is sent at a clean end, or fails with the source. |
| `LineReader.LineBufferedRead.PollRead` | `crates/codegen/xai-acp-lib/src/line_reader.rs:96-132` | Delivered plus held equals held before; pending exactly when nothing is stashed, nothing queued and the sender alive; a stash is served up to the room given. |
| `LineReader.LineBufferedRead.Receive` | `crates/codegen/xai-acp-lib/src/line_reader.rs:117-128` | A received line is served from its start and what does not fit is kept. |
| `LineReader.Serve` | `crates/codegen/xai-acp-lib/src/line_reader.rs:96-132` | Over every interleaving of sends and polls with any sizes: delivered plus held equals what was sent, pending occurs only between messages, and an end is reported only when everything was delivered. |
| `LineReader.BetweenLines` | `crates/codegen/xai-acp-lib/src/line_reader.rs:34-41` | Between two messages the last byte delivered is a newline. |
| `LineReader.CellsOfStream` | `crates/codegen/xai-acp-lib/src/line_reader.rs:68-85` | What the messages carry is the lines sent, followed by the failure the stream calls for. |
| `LineReader.ReadThrough` | `crates/codegen/xai-acp-lib/src/line_reader.rs:54-132` | Source to consumer, for every chunking and schedule: a consumer told of the end has had the lines and the failure, and exactly the stream when there is none. |
| `Gc.TriedOnlyReclaimable` | `crates/codegen/xai-fast-worktree/src/api.rs:1682-1699` | Without force, whatever others do meanwhile, a removal is only tried on a worktree whose own row, read again at that moment, is expired and unguarded; what lies below it has no say. |
| `Gc.ListedTreesLeaveForAReason` | `crates/codegen/xai-fast-worktree/src/api.rs:1659-1722` | Over a whole pass without force, the tree of a listed worktree goes with the others, with a removal that its own row allowed when read again, or with one of a listed worktree strictly above it; the last not when none is above it. |
| `Gc.NestedTreeGoes` | `crates/codegen/xai-fast-worktree/src/api.rs:1659-1722` | A concrete pass in which a worktree with a living creator is skipped at its own turn and loses its tree at the turn of the expired worktree around it, its row staying. |
| `Gc.SparedTreesStayIff` | `crates/codegen/xai-fast-worktree/src/api.rs:1609-1722` | In a world at rest where removals succeed, every present worktree that is recent or guarded keeps its tree if and only if none of them lies at or below a doomed one. |
| `Gc.CoversIff` | `crates/codegen/xai-fast-worktree/src/api.rs:1682-1699` | A check of the row's path vouches for the listed path, whatever processes run, if and only if the row's path or its physical form is at or above both the listed path and its physical form. |
| `Gc.AttemptsProtectedIff` | `crates/codegen/xai-fast-worktree/src/api.rs:1682-1701` | Over a whole pass without force: a tree that is tried was protected by its re-check if and only if the row read again covers the listed path, and then no process sits in it. |
| `Gc.AttemptsAreVacant` | `crates/codegen/xai-fast-worktree/src/api.rs:1682-1701` | While others register rows only with the current time or the listed path under an id, as the repository does, every row read again has the listed path, its check protects the tree, and no process sits in it. |
| `Gc.MovedRowIsNotGuarded` | `crates/codegen/xai-fast-worktree/src/api.rs:1687-1701` | A concrete run in which the row under the listed id was written anew with another path and an old time, and the listed tree is removed with a process in it. |
| `Gc.CollectsInTime` | `crates/codegen/xai-fast-worktree/src/api.rs:1645-1701` | Over a whole collection, whatever the others do: a removal is only tried on a row listed alive and present whose creation and last access both lie before the clock minus the age, and without force, in a readable database, on a row read again of which the same holds and whose creator and tree no process keeps alive. |
| `Gc.TreeGoesIff` | `crates/codegen/xai-fast-worktree/src/api.rs:1609-1722` | In a world at rest where removals succeed, a path leaves the disk if and only if it lies at or below a present worktree that was neither made nor used since the clock minus the age and, without force, is unoccupied. |
| `Gc.RowStaysIff` | `crates/codegen/xai-fast-worktree/src/api.rs:1609-1722` | There, in the default database, a row stays if and only if it is alive, present, and recent or, without force, occupied. |
| `Gc.VanishedIsPassedOver` | `crates/codegen/xai-fast-worktree/src/api.rs:1682-1699` | A candidate whose row has vanished or cannot be read again is neither removed nor counted. |
| `Gc.GoneTreeIsDropped` | `crates/codegen/xai-fast-worktree/src/api.rs:1717-1720` | A candidate whose tree is gone only loses its row, and is counted only when there was one to lose. |
| `Gc.CutoffNotAhead` | `crates/codegen/xai-fast-worktree/src/api.rs:1647-1651` | For every 64-bit age the cutoff is a 64-bit value not after the clock, and the clock minus the age where that does not leave 64 bits. |
| `Gc.CountersBounded` | `crates/codegen/xai-fast-worktree/src/api.rs:1609-1722` | Each candidate adds to at most one counter, and no counter falls. |
| `Gc.RecordOutlivesWorktree` | `crates/codegen/xai-fast-worktree/src/api.rs:590-605` | A failed removal, which may have deleted any part of the tree, keeps every record and touches only the tree; a row leaves only with its own id or path, once that path is off the disk. |
| `Gc.RowsLeaveForAReason` | `crates/codegen/xai-fast-worktree/src/api.rs:1659-1722` | Over a whole pass, every row that leaves was taken by the others at some turn or by an attempt to remove a worktree with its id or path. |
| `Gc.PathsLeaveForAReason` | `crates/codegen/xai-fast-worktree/src/api.rs:1659-1722` | Over a whole pass, everything that leaves the disk was taken by the others at some turn or lay at or below the path of an attempt. |
| `Gc.DryRunChangesNothing` | `crates/codegen/xai-fast-worktree/src/api.rs:1617-1630` | A dry run leaves the state to what only the others do to it. |
| `Gc.DryRunTriesNothing` | `crates/codegen/xai-fast-worktree/src/api.rs:1673-1681` | A dry run tries no removal and counts no failure. |
| `Gc.DryRunPredicts` | `crates/codegen/xai-fast-worktree/src/api.rs:1617-1681` | In a world at rest a dry run reports the dead rows a real run drops and, as expired, those it removes or fails to remove; its skipped count is at least the real one. |
| `Gc.CollectsExactly` | `crates/codegen/xai-fast-worktree/src/api.rs:1609-1722` | In a world at rest where removals succeed, a real run takes off the disk exactly the trees of the doomed, nested worktrees included, and keeps exactly the rows present and not doomed if and only if the database is the default one or no row present is doomed. |
| `Gc.RowStaysElsewhere` | `crates/codegen/xai-fast-worktree/src/api.rs:590-605` | A concrete turn in a database that is not the default one: the tree is removed and counted, and its row stays. |
| `Gc.PassAtRest` | `crates/codegen/xai-fast-worktree/src/api.rs:1659-1718` | The expired pass counts by what the rows said at its start, although rows and trees go while it runs. |
| `Gc.DeadPassDropsAll` | `crates/codegen/xai-fast-worktree/src/api.rs:1633-1643` | Every dead row listed is dropped and counted once, and the alive rows stay as they were. |
| `Gc.SweptAlive` | `crates/codegen/xai-fast-worktree/src/db/queries.rs:211-231` | The sweep leaves exactly the rows with an existing path alive. |
| `Gc.SweptDead` | `crates/codegen/xai-fast-worktree/src/db/queries.rs:211-231` | After the sweep the dead rows are as many as the rows that were dead or had lost their path. |
| `Gc.Machine.SweepDead` | `crates/codegen/xai-fast-worktree/src/db/queries.rs:211-231` | The loop over a snapshot of the alive rows marks exactly those whose path is gone, or fails without a change. |
| `Gc.Machine.Consider` | `crates/codegen/xai-fast-worktree/src/api.rs:1659-1718` | One candidate is handled with the checks in the order of the source and leaves the specified state. |
| `Gc.Machine.ReclaimExpired` | `crates/codegen/xai-fast-worktree/src/api.rs:1659-1718` | The loop over the listed rows gives the state, counters and attempts of the specification. |
| `Gc.Machine.CollectGarbage` | `crates/codegen/xai-fast-worktree/src/api.rs:1609-1722` | The whole collection, error returns included. |
| `Usage.FoldedIsSaturatedSum` | `crates/codegen/xai-chat-state/src/usage.rs:71-90` | Each counter folded step by step with saturation is the exact sum saturated once, over every history. |
| `Usage.TotalsAreSumOverModels` | `crates/codegen/xai-chat-state/src/usage.rs:140-146` | Each counter of the totals is the saturated sum of that counter over the models. |
| `Usage.FoldedCost` | `crates/codegen/xai-chat-state/src/usage.rs:93-98` | A cost is absent if and only if no fold reported one, and for every history lies between two bounds computed from the sum of the positive and the sum of the negative costs. |
| `Usage.BoundsReached` | `crates/codegen/xai-chat-state/src/usage.rs:93-98` | Each of the two bounds is the cost of some reordering of the history. |
| `Usage.OneCostIff` | `crates/codegen/xai-chat-state/src/usage.rs:93-98` | The bounds coincide if and only if no cost is negative, none is positive, or neither sum saturates; the cost is then the exact sum, saturated once. |
| `Usage.CostOrderFreeIff` | `crates/codegen/xai-chat-state/src/usage.rs:93-98` | Every reordering of a history gives the same cost if and only if that condition holds. |
| `Usage.CostIsSumOverModels` | `crates/codegen/xai-chat-state/src/usage.rs:93-98` | Where the order is free the total cost is the saturated sum of the models' costs. |
| `Usage.CostOrderCanMatter` | `crates/codegen/xai-chat-state/src/usage.rs:93-98` | Two orders of the same three folds, one negative, that give different costs. |
| `Usage.NestedIsBilled` | `crates/codegen/xai-chat-state/src/usage.rs:127-134` | However ledgers are nested, the history of one fed by recorded calls and by such ledgers holds no cost at or below zero, so the order is free for it. |
| `Usage.FoldsBilled` | `crates/codegen/xai-grok-sampling-types/src/conversation.rs:732-734` | What a source adds to a history holds no cost at or below zero, and a recorded call adds a cost exactly when it reports a positive one. |
| `Usage.OrderDoesNotMatter` | `crates/codegen/xai-chat-state/src/usage.rs:71-90` | Folding is independent of order: every counter and whether there is a cost always, the cost whenever its order is free. |
| `Usage.HistoriesAgree` | `crates/codegen/xai-chat-state/src/usage.rs:140-146` | The same models have entries for every order of the history, and every entry agrees on the counters, and on the cost when the order of that model's folds is free. |
| `Usage.EntryOrderFreeIff` | `crates/codegen/xai-chat-state/src/usage.rs:140-146` | Every reordering of a history gives a model's entry the same cost if and only if the order of that model's folds is free. |
| `Usage.EntryCost` | `crates/codegen/xai-chat-state/src/usage.rs:93-98` | A model's entry has no cost if and only if no fold for it reported one, lies between the bounds of that model's folds, and is their exact sum, saturated once, where their order is free. |
| `Usage.EntriesByModel` | `crates/codegen/xai-chat-state/src/usage.rs:140-146` | There is one entry per model, in order of first appearance, each the fold of that model's own history. |
| `Usage.LedgerLaws` | `crates/codegen/xai-chat-state/src/usage.rs:100-108` | In every ledger reached: totals are sums over models, main-loop calls are at most all calls, all fields are within their widths. |
| `Usage.LedgerCountsCalls` | `crates/codegen/xai-chat-state/src/usage.rs:46-90` | Every counter of a ledger fed by calls and by nested ledgers is the sum of what all those calls reported for it (prompt, completion, cached and reasoning tokens, one a call, duration, calls without a cost), saturated once. |
| `Usage.LedgerCostsCalls` | `crates/codegen/xai-chat-state/src/usage.rs:93-98` | And its cost is the sum of the positive costs reported, saturated once. |
| `Usage.UsageLedger.FoldEntry` | `crates/codegen/xai-chat-state/src/usage.rs:140-146` | Folding adds to the totals and to the model's entry, made at the end if new. |
| `Usage.UsageLedger.RecordMainLoopCall` | `crates/codegen/xai-chat-state/src/usage.rs:114-124` | Records the call in the history and counts one more main-loop call; completeness is unchanged. |
| `Usage.UsageLedger.RecordSubagent` | `crates/codegen/xai-chat-state/src/usage.rs:127-134` | Appends the entries to the history, leaves the main-loop count, and never resets incomplete. |
| `Usage.UsageLedger.MarkIncomplete` | `crates/codegen/xai-chat-state/src/usage.rs:136-138` | Sets incomplete and keeps the rest valid. |
| `CrashFormat.ParseWritten` | `crates/codegen/xai-crash-handler/src/format.rs:49-111` | Round trip for all values and up to 64 frames, whatever bytes follow: parsing gives back every field, every frame and the version. |
| `CrashFormat.ParsesIffWritten` | `crates/codegen/xai-crash-handler/src/format.rs:49-111` | The parser accepts data if and only if it begins with a header and frames, at most 64, that the writer can make. |
| `CrashFormat.ParseBlob` | `crates/codegen/xai-crash-handler/src/format.rs:49-111` | The parser with its frame loop computes the specified result, rejections included. |
| `CrashFormat.VersionReadsBackIff` | `crates/codegen/xai-crash-handler/src/format.rs:77-81` | A well-formed version string reads back as it was if and only if it has at most 32 bytes and does not end in NUL. |
| `CrashFormat.WriteHeader` | `crates/codegen/xai-crash-handler/src/format.rs:126-152` | Field by field the buffer holds the header, the version cut or padded to 32 bytes. |
| `CrashFormat.WriteFrame` | `crates/codegen/xai-crash-handler/src/format.rs:160-163` | Exactly eight bytes change and hold the address, lowest byte first. |
| `Utf8Bytes.WellFormedPadded` | `crates/codegen/xai-crash-handler/src/format.rs:77-81` | Padding with NUL does not change whether bytes are well-formed UTF-8. |
| `Utf8Bytes.EncodedLength` | `crates/codegen/xai-chat-state/src/compaction_utils.rs:225-240` | The number of bytes that byte lengths count for a character is that of its encoding, which is one well-formed character of UTF-8. |
| `LittleEndian.LERoundTrip` | `crates/codegen/xai-crash-handler/src/format.rs:63-75` | Reading back a number written in enough little-endian bytes gives the number. |
| `LittleEndian.BytesRoundTrip` | `crates/codegen/xai-crash-handler/src/format.rs:63-75` | And bytes are the little-endian form of the number they read as. |
| `CrashHandler.WalkFramePointers` | `crates/codegen/xai-crash-handler/src/handler.rs:155-185` | The loop fills the array with the walked addresses, at most the limit, and faults where the walk does. |
| `CrashHandler.WalkReadsChain` | `crates/codegen/xai-crash-handler/src/handler.rs:155-185` | The addresses come from a strictly rising, aligned chain of frames, and a walk that does not fault ends only at the limit or at a pointer or address the checks refuse. |
| `CrashHandler.WriteCrashBlob` | `crates/codegen/xai-crash-handler/src/handler.rs:356-399` | Whether or not the walk faults the file parses, and its frames are: none without a crash address; the address alone without a frame pointer or when the chain leads to an unreadable one within 63 frames; else the address and the whole chain of return addresses, up to 63. |
| `CrashHandler.FillBlob` | `crates/codegen/xai-crash-handler/src/handler.rs:370-375` | The buffer holds the header and the frames in order. |
| `CrashHandler.TornRewrite` | `crates/codegen/xai-crash-handler/src/handler.rs:383-392` | If only k bytes of the rewrite reach the disk the file parses to the first blob exactly for k up to 30, to nothing for larger k, and to the full blob when complete. |
| `Segments.FilenameParses` | `crates/codegen/xai-chat-state/src/compaction_transcript.rs:81-97` | Every 64-bit index survives the round trip through its file name. |
| `Segments.FilenamesDiffer` | `crates/codegen/xai-chat-state/src/compaction_transcript.rs:86-88` | Two indexes never share a file name. |
| `Segments.WithThousands` | `crates/codegen/xai-chat-state/src/compaction_transcript.rs:153-164` | The left-to-right loop computes groups of three from the right. |
| `Segments.GroupedKeepsDigits` | `crates/codegen/xai-chat-state/src/compaction_transcript.rs:153-164` | Grouping only inserts commas, one for every three digits after the first. |
| `Segments.CommaPlaces` | `crates/codegen/xai-chat-state/src/compaction_transcript.rs:153-164` | Commas stand exactly where a multiple of three digits follows. |
| `Segments.RenderSegment` | `crates/codegen/xai-chat-state/src/compaction_transcript.rs:478-507` | The loop keeps the specified number of leading whole turns and reports exactly the number omitted. |
| `Segments.KeptIsMost` | `crates/codegen/xai-chat-state/src/compaction_transcript.rs:481-495` | The kept turns are the longest run of leading turns whose bytes fit the budget. |
| `Segments.KeptIffFits` | `crates/codegen/xai-chat-state/src/compaction_transcript.rs:481-495` | In plain numbers: so many leading turns are kept exactly when they, the preamble and 128 bytes fit 524288, or have no bytes. |
| `Segments.DocumentBytes` | `crates/codegen/xai-chat-state/src/compaction_transcript.rs:478-507` | The exact byte length of a document, separators and notice included. |
| `Segments.DocumentHolds` | `crates/codegen/xai-chat-state/src/compaction_transcript.rs:478-507` | Where every kept turn stands in the document: after the preamble and the turns before it, a newline between each two; and the notice right after the last. |
| `Segments.NoticeText` | `crates/codegen/xai-chat-state/src/compaction_transcript.rs:22-24` | The notice word by word, with the cap and the number of omitted turns. |
| `Segments.WithinCapIff` | `crates/codegen/xai-chat-state/src/compaction_transcript.rs:478-507` | A document is within the cap if and only if preamble, kept turns and the newlines between them leave room for the notice with the digits of the omitted count; in particular when no turn is omitted and the newlines fit the reserve. |
| `Segments.OverByAtMostSeparators` | `crates/codegen/xai-chat-state/src/compaction_transcript.rs:481-507` | Whatever the preamble, a document exceeds the larger of the cap and the preamble with its reserve by at most one byte per pair of neighbouring turns, for turn counts of up to twenty digits. |
| `Segments.CapCanBeExceeded` | `crates/codegen/xai-chat-state/src/compaction_transcript.rs:478-507` | The cap is exceeded for every preamble that leaves 200000 bytes and all turns of at most 128 bytes once a turn is omitted. |

## Left out

Across the project:

- Logging, tracing, telemetry, metrics and serialization: they do not affect the modelled state.
- Characters: a Rust `char` is a Dafny `char`, and byte lengths are computed from UTF-8 widths.
- Token counts and byte lengths are unbounded integers; overflow of a sum of lengths in 64 bits is not modelled.
- The HTTP and WebSocket servers, the command line, PTY spawning and the ACP message types: wiring over libraries.

Conversation repair and compaction:

- Fields of a conversation item that no modelled branch reads, such as model ids and status flags.
- `strip_reasoning_blocks`, `strip_images` and the other `prepare_*` helpers: filters that would only add easy members.
- The carrier for a summary before the recent messages: it returns nothing in this build.
- The state-context text that goes into a compacted history is an input of the builder.
- Budget.TailBranchFits: an upper bound, not the limit itself, because the code never cuts the owner, images or tool arguments, cuts each text part of a user item to the whole share, and adds a marker whose digits its reserve may not cover.
- Stripping.StrippedHasNoBlocks: its condition on broken-off tags is sufficient, not necessary, because whether a removal puts a tag together depends on what every removal before it took out.

Terminal waits:

- The emulator: the grid is the list of updates applied to it, and a condition is any predicate of that list.
- Real time: an abstract clock that only moves forward; a ready timer and a ready change may be taken in either order.
- The other asynchronous jobs around the feeder, and the diagnostics text of an outcome.

Index manager:

- Parsing and symbol extraction: indexing a file is a function of its path in a fixed file system.
- The alias table, the order of symbols within a file and the query caches: an index is a map from key to entry.
- Cache saving and its throttle, and answers to queries beyond the index they read.
- Coalesce.CoalescingRefinesIff: stated for absolute event paths, because a relative path and the stripped form of an absolute one can name the same entry.

Interner:

- The concrete hash function: any function of the bytes.
- Capacity hints, iteration and the UTF-8 views.
- Interner.InternRefines: stated within the field widths that `Interner.Fits` lists. `Interner.ReadsBackIff` says what happens when the length of a string exceeds its field; arenas and ids of 2^32 and more are not covered.

Line reader:

- The executor, wakers and the bound of 64 messages on the channel: a send that waits is an arrival that comes later.
- A receiver dropped while the reader is sending: the reader then stops and nobody polls.
- The number of bytes named in the size error, which depends on the chunking.

Garbage collection:

- Reading `/proc`, signalling processes, mounts, overlay and btrfs: a state says which paths exist, which cannot be removed and which processes run.
- What others do between the re-check of a candidate and its removal, and during the sweep and the dead pass: each of those is one step.
- The order of listed rows: row order stands for it, and no theorem depends on it.
- Gc.CollectsExactly: assumes that nobody else acts and that removals succeed; the safety lemmas assume neither. `Gc.SparedTreesStayIff` assumes the same; under interference `Gc.ListedTreesLeaveForAReason` says why a tree went.
- Gc.AttemptsAreVacant: assumes of the others what the repository's writers do with a clock that does not run backwards and with ids that differ when the paths they are derived from differ.
- Gc.DryRunPredicts: assumes that no path inside another worktree is itself a symbolic link, which covers paths that are not nested.

Ledger, crash blobs and segments:

- Usage.CostIsSumOverModels: stated where the order is free; elsewhere the total and the entries saturate separately, and what holds are the bounds of `Usage.FoldedCost` and `Usage.EntryCost`.
- Reading registers and signal information: the crash address, the frame pointer and the header fields are inputs, and memory is a map whose missing addresses fault.
- A first write that is cut short: only the rewrite is modelled as cut short.
- Alternate stacks, terminal modes, Windows, and re-raising the signal.
- How a turn renders at each detail level, the statistics block, keywords and index rows: a turn is the block it renders to.
- The `none` detail level, which stops before the turns, and the classification of paths under the compaction directory.
