# Verified model of the trading platform's core

The project models six stateful parts of the platform and proves what they promise over all
inputs and all runs. Methods with loops and fields are imperative Dafny proved against
specification functions; the main results are lemmas about those functions.

- **Tick-to-candle engine** (`Candles`, `TapeSort`, `BatchFold`, `Feed`, `FeedRuns`, `FeedTimely`,
  `FeedMarks`, `FeedLate`, `FeedContents`, `Forming`, `SymbolFeeds`, `M20Engine`). A feed deduplicates prints, holds
  them in a reorder buffer, and closes OHLCV windows behind a watermark. A `Book` is a feed with the
  full record of its run. Within the lateness bound, the stream is the batch bucketing of the stably
  sorted tape, in any arrival order; without it, windows stay disjoint, candles hold exactly their own
  stretch of ticks, every tick is accounted for, and a print drops at most its own tick.
- **PHP session codec** (`PhpText`, `PhpCodec`, `PhpWire`, `PhpParser`, `PhpScan`, `PhpCount`, `PhpSession`,
  `PhpEscapes`, `PhpUnescape`, `PhpFallback`, `PhpSanitize`, `PhpRescue`). A length-aware reader that repairs stale headers, the canonical printer, an
  independent brace-and-string scanner, and the sanitizer that must satisfy a strict client.
  A `Wire` is a text with stale counts, stale lengths and object wrappers; its `Meaning`
  is the value it stands for. Bytes are characters.
- **Live-stream slots** (`Slots`, `SlotRuns`, `SlotHistory`, `ReaderSlots`). Coroutines reserve, shake hands, fail, evict and release
  against a fixed connection budget, as steps between await points.
- **American option tree** (`OptionTree`, `OptionPolicies`). The in-place backward induction computes
  the recursive value, that value is the best over all ways of exercising, and the classic theorems
  follow over reals.
- **Learning** (`Accuracy`, `AssetWeights`, `LearningFacts`, `Posteriors`, `BayesEnsemble`, `BayesWeights`). Outcome ledgers and a
  gate that only rises, weights earned per asset class, and Beta posteriors per market and
  regime fused into one confidence. `Reals` and `Text` hold what they share,
  `Options` and `Collections` what all parts do.
- **Relay outboxes** (`Relay`, `RelayRuns`, `RelayMoves`, `RelayExamples`, `RelayServers`). One bounded queue per client, one counter.

## Where the code and its documentation differ

The model follows the code.

- The forming candle is documented as a merge of all pending ticks (m20_engine.py:269-271). The
  preview keeps only the open bucket's opening price, so the merge is exact only when that
  bucket holds one tick: `Forming.FormingMergesIffSingle` says what shows otherwise, and
  `Forming.FormingLosesHigh` is a run that has traded at 3 and shows a high of 2.
- A correct record is meant to raise a posterior. Above the evidence cap it can lower the mean:
  `Posteriors.CorrectLowersMeanIff` says exactly when, `Posteriors.CorrectCanLower` shows it.
- The relay's `seq` is documented as drop detection (relay.py:7-9, 129). A frame sent to one client
  takes a number that the others never see: `RelayExamples.GapWithoutDrop` shows a gap without a
  drop, and `RelayRuns.GapIff` says for every run what a gap means.
- A full queue is documented to disconnect the client (relay.py:16-17). A broadcast that finds
  several full clients removes the first at once and the others one await at a time:
  `RelayExamples.FullClientLingers` shows a registered client that has refused a frame, and
  `RelayRuns.NothingSkipped` that those are exactly the clients a suspended broadcast still holds.
- The relay is documented as zero-drop. A failed write loses its frame, and a later send starts the
  writer again: `RelayExamples.RestartSkips` shows the skipped frame, and
  `RelayRuns.DeliveredIsPrefixIff` says exactly when nothing is skipped.
- The scanner is documented as brace- and string-aware. A quote inside a string misleads it:
  `PhpScan.QuoteMisleadsScanner`. `PhpScan.FindBodyExact`, `PhpScan.FindBodyParity` and
  `PhpCount.CountExactIff` say exactly on which sessions it is right.
- A normalised session is not always left alone by a second normalisation. `PhpFallback.NormalizeFallbackIff`
  says for which inputs it is on the fallback path, and `PhpEscapes.StrictFixedIff` on the strict one.
  `PhpFallback.NormalizedTwice` and `PhpEscapes.EscapeIsTakenOff` name sessions that change,
  `PhpFallback.StaleSession` and `PhpEscapes.EscapedSession` one of each.
- Forcing a header is documented to preserve the body; a brace in a class name breaks that:
  `PhpSession.BraceInName`.
- The American call equals the European one only for strikes of at least zero, and the tree
  accepts any strike: `OptionTree.CallsAgreeIffStrikeNonNegative`.
- `weights` normalises a regime's name once, fusing and learning twice, so a blank name makes
  them use different states: `BayesEnsemble.SameStateIff`.
- The sample-size shrink of a learned tilt is always 1: `AssetWeights.ShrinkIsOne`.
- `_normalise` is documented to clamp into [0, 1]; it clamps below only, and rescales:
  `AssetWeights.ClampExample` shows weights where that matters, `AssetWeights.NormaliseClampsIff`
  says exactly where it does not.

## Model

| member | source | states |
|---|---|---|
| TapeSort.StableSortSpec | pocket-bridge/pocket_bridge/m20_engine.py:197-198 | The buffer's sort is sorted, a permutation, and keeps arrival order among equal stamps. |
| TapeSort.StableSortUnique | pocket-bridge/pocket_bridge/m20_engine.py:198 | Sortedness and the order among equals determine the sorted buffer. |
| TapeSort.SortForgetsArrival | pocket-bridge/pocket_bridge/m20_engine.py:198 | With distinct stamps, sorting forgets the arrival order. |
| TapeSort.InsertBehind | pocket-bridge/pocket_bridge/m20_engine.py:197-198 | A tick no older than a settled prefix is inserted behind that prefix. |
| Candles.AlignedGap | pocket-bridge/pocket_bridge/m20_engine.py:220 | Two different window starts of one width are at least one width apart. |
| Candles.VolumeIsSum | pocket-bridge/pocket_bridge/m20_engine.py:123-130 | The volume of a window is missing if and only if that of each tick is, and otherwise the sum of the known ones. |
| Candles.BatchUnique | pocket-bridge/pocket_bridge/m20_engine.py:123-149 | A tape has one batch bucketing: one bucket per non-empty window, each the OHLCV of exactly its ticks. |
| BatchFold.UpdateSummarises | pocket-bridge/pocket_bridge/m20_engine.py:123-130 | Updating a bucket keeps it the OHLCV summary (open, high, low, close, count, volume, first and last stamp) of its ticks. |
| BatchFold.FoldIsBatch | pocket-bridge/pocket_bridge/m20_engine.py:224-254 | On a sorted tape, putting ticks one by one into the newest bucket or a new one yields the batch bucketing. |
| FeedRuns.ClosedWindowsDisjoint | pocket-bridge/pocket_bridge/m20_engine.py:245-256 | In every run, with late ticks and interval switches anywhere, closed windows are aligned to their own width, in order and disjoint, each with its start in whole seconds. |
| FeedRuns.TicksConserved | pocket-bridge/pocket_bridge/m20_engine.py:208-255 | In every run accepted ticks are exactly those in closed candles, the open bucket, the buffer, the late drops and the buckets lost to a switch. |
| FeedContents.CandlesHoldTheirTicks | pocket-bridge/pocket_bridge/m20_engine.py:208-255 | In every run, late ticks and switches included, the bucketed ticks split into consecutive stretches: each closed candle is the OHLCV of its own, all inside its window, and the open bucket of the last. |
| FeedRuns.BoundedStoresExact | pocket-bridge/pocket_bridge/m20_engine.py:192-195 | History and dedup window are exactly the newest part of everything ever closed and ever accepted. |
| FeedRuns.DedupExact | pocket-bridge/pocket_bridge/m20_engine.py:185-206 | A print changes nothing if and only if it is no valid price or one with its stamp, price, bid and ask is among the last 100,000 accepted; otherwise it is accepted. |
| FeedRuns.TwinsAccepted | pocket-bridge/pocket_bridge/m20_engine.py:186-194 | Two prints of one stamp with different quotes are both accepted. |
| FeedRuns.KeysAreStamps | pocket-bridge/pocket_bridge/m20_engine.py:188-196 | In every run the keys on record are those of the accepted ticks, one each, in order. |
| FeedRuns.FlushLeavesBoundaryOnly | pocket-bridge/pocket_bridge/m20_engine.py:216-255 | After a flush, a pending tick the watermark has reached sits exactly on the end of the open window, and so does the watermark. |
| FeedRuns.FlushClosesPastOnly | pocket-bridge/pocket_bridge/m20_engine.py:245-254 | A window is closed only once the watermark is strictly past its end. |
| FeedMarks.NothingLeavesEarly | pocket-bridge/pocket_bridge/m20_engine.py:206-256 | In every run, switches included, with m the newest accepted stamp: whatever left the buffer is stamped m minus the reorder bound or earlier, and every closed window ended before that. |
| FeedMarks.NothingStaysLate | pocket-bridge/pocket_bridge/m20_engine.py:195-256 | Right after every accepted print no pending tick is stamped m minus the reorder bound or earlier, unless it sits on it and that is the end of the open window. |
| FeedMarks.StreamMarks | pocket-bridge/pocket_bridge/m20_engine.py:172-256 | At a constant interval both hold at every moment of the tape. |
| FeedTimely.HeadNotLate | pocket-bridge/pocket_bridge/m20_engine.py:221-223 | On a tape within the lateness bound the flush never drops a tick. |
| FeedLate.LateExact | pocket-bridge/pocket_bridge/m20_engine.py:216-245 | At a constant interval, whatever the arrival order, a print drops nothing but its own tick, and does so if and only if it is accepted and its window begins before the open window or before the end of the last closed one. |
| FeedTimely.StreamingIsBatch | pocket-bridge/pocket_bridge/m20_engine.py:172-255 | Within the lateness bound nothing is dropped, and closed candles, open bucket and pending ticks are together the batch bucketing of the sorted tape. |
| FeedTimely.ClosedCandlesComplete | pocket-bridge/pocket_bridge/m20_engine.py:208-255 | Within the bound a closed candle is the OHLCV of every tick of the whole tape in its window, those still pending included. |
| FeedTimely.GenuineAccepted | pocket-bridge/pocket_bridge/m20_engine.py:185-197 | A duplicate-free tape of valid prints is accepted in full and in order. |
| FeedTimely.ArrivalOrderForgotten | pocket-bridge/pocket_bridge/m20_engine.py:172-255 | Two arrival orders of the same distinctly stamped prints, both within the bound, end with the same candles, history, open bucket and buffer. |
| Forming.FormingHoldsLastPrice | pocket-bridge/pocket_bridge/m20_engine.py:262-330 | Once anything was accepted there is a forming candle, on the current grid, closing at the newest accepted price. |
| Forming.FormingShows | pocket-bridge/pocket_bridge/m20_engine.py:262-355 | Pending ticks of a later window than the open one show as the OHLCV of exactly the oldest such window; otherwise the open bucket shows, and with neither the held price alone, in the window of the newest tick. |
| Forming.FormingMergesIffSingle | pocket-bridge/pocket_bridge/m20_engine.py:332-355 | Pending ticks of the open window are merged without loss if and only if the open bucket holds one tick; of any other the forming candle counts the ticks as one, and shows their high or low only if the opening price or a pending tick reaches it too. |
| Forming.FormingLosesHigh | pocket-bridge/pocket_bridge/m20_engine.py:262-355 | A run of three prints after which the window has traded at 3 and the forming candle's high is 2. |
| SymbolFeeds.OpenWindow.Update | pocket-bridge/pocket_bridge/m20_engine.py:123-130 | The in-place update leaves the bucket the specified one. |
| SymbolFeeds.SymbolFeed.PushTick | pocket-bridge/pocket_bridge/m20_engine.py:172-206 | The in-place feed moves as the specified push, returns None exactly on refusal, and else the candles closed by this tick in order. |
| SymbolFeeds.SymbolFeed.FlushReady | pocket-bridge/pocket_bridge/m20_engine.py:208-255 | The flush loop moves the feed as the specified flush, terminates, and returns exactly the candles it closed. |
| SymbolFeeds.SymbolFeed.Remember | pocket-bridge/pocket_bridge/m20_engine.py:192-195 | The lookup set stays the set of keys in the bounded window. |
| SymbolFeeds.SymbolFeed.AppendClosed | pocket-bridge/pocket_bridge/m20_engine.py:257-260 | History keeps the newest candles up to its bound. |
| SymbolFeeds.SymbolFeed.SwitchInterval | pocket-bridge/pocket_bridge/m20_engine.py:434-437 | A switch drops only the open bucket; a width of zero or less changes nothing. |
| SymbolFeeds.SymbolFeed.PreviewWindow | pocket-bridge/pocket_bridge/m20_engine.py:332-355 | The preview loop builds the specified preview bucket. |
| SymbolFeeds.SymbolFeed.Forming | pocket-bridge/pocket_bridge/m20_engine.py:262-330 | The forming candle of the object is the specified one, and asking changes nothing. |
| M20Engine.FeedsIndependent | pocket-bridge/pocket_bridge/m20_engine.py:379-484 | In any interleaving a feed, registered at any moment, runs exactly as it would alone from the interval then in force, on its own later ticks and the shared switches. |
| M20Engine.Engine.EnsureFeed | pocket-bridge/pocket_bridge/m20_engine.py:402-422 | A new symbol gets a fresh feed, an existing feed and every other one is untouched. |
| M20Engine.Engine.HandleTickAll | pocket-bridge/pocket_bridge/m20_engine.py:457-490 | A tick moves only its own symbol's feed; an unknown symbol closes nothing. |
| M20Engine.Engine.SetIntervals | pocket-bridge/pocket_bridge/m20_engine.py:424-437 | A valid switch reaches every feed, an invalid one none. |
| PhpCodec.ParseWellFormed | pocket-bridge/pocket_bridge/config.py:255-323 | Whatever text is read, the value has distinct keys and at most 10,000 entries at every level. |
| PhpWire.ReadStringExact | pocket-bridge/pocket_bridge/config.py:225-242 | A string literal reads back as its payload if and only if its length is right, or the closing token is neither in the payload nor where the length points. |
| PhpWire.ReadRender | pocket-bridge/pocket_bridge/config.py:225-314 | Whatever stale counts, understated lengths, object wrappers and repeated keys a readable text has, the reader recovers its meaning and leaves exactly what follows. |
| PhpWire.ParseRender | pocket-bridge/pocket_bridge/config.py:316-323 | The same for a whole session, with the repair flag set exactly when something needed repair. |
| PhpText.SignedReads | pocket-bridge/pocket_bridge/config.py:271-273 | An integer is read with blanks around it and a sign in front. |
| PhpWire.RoundTrip | pocket-bridge/pocket_bridge/config.py:445-466 | A canonical print followed by any bytes reads back as exactly the value and those bytes, with no flag set. |
| PhpWire.PrintInjective | pocket-bridge/pocket_bridge/config.py:445-466 | Different values never print the same. |
| PhpParser.Parser.ParseSession | pocket-bridge/pocket_bridge/config.py:316-323 | The cursor parser returns what the reader functions give on the whole text: value, rest, flags or error. |
| PhpParser.Parser.ReadStr | pocket-bridge/pocket_bridge/config.py:225-242 | Reading a string by cursor gives the reader's payload, rest and repair flag, and fails exactly when it does. |
| PhpParser.Parser.ReadEntryLoop | pocket-bridge/pocket_bridge/config.py:255-265 | The entry loop computes the reader's entries whatever the declared count. |
| PhpParser.Parser.ReadArrayBody | pocket-bridge/pocket_bridge/config.py:288-299 | An array by cursor agrees with the reader, count repair included. |
| PhpParser.Parser.ReadObjectBody | pocket-bridge/pocket_bridge/config.py:301-314 | An object by cursor agrees with the reader and is noted. |
| PhpScan.SkipStringAgrees | pocket-bridge/pocket_bridge/config.py:370-387 | On every input the scanner skips a string literal exactly as far as the reader reads it, or both fail. |
| PhpScan.FindBodyLoop | pocket-bridge/pocket_bridge/config.py:346-367 | The index loop finds what the specified scan finds. |
| PhpScan.CountKeysLoop | pocket-bridge/pocket_bridge/config.py:417-442 | The counting loop computes the specified count. |
| PhpScan.FindBodyIff | pocket-bridge/pocket_bridge/config.py:346-367 | In any text the braces around a body are found if and only if the walk over the body, strings skipped from quote to quote, ends at its own level and outside a string. |
| PhpScan.FindBodyExact | pocket-bridge/pocket_bridge/config.py:346-367 | On every container, whatever follows it, the outer braces are found if and only if no brace opens in the header and the walk over the items ends level. |
| PhpScan.FindBodyParity | pocket-bridge/pocket_bridge/config.py:346-367 | On a flat session without braces in its payloads that is so if and only if keys and payloads hold an even number of quotes. |
| PhpScan.QuoteMisleadsScanner | pocket-bridge/pocket_bridge/config.py:346-367 | A session on the wrong side: its payload ends the walk early and the body is closed inside the payload. |
| PhpCount.CountExactIff | pocket-bridge/pocket_bridge/config.py:390-442 | With string and integer keys, any values the scanner can skip and blanks between tokens, the count is the number of entries if and only if the walk over them ends level, or inside the last value or the blanks behind it. |
| PhpCount.CountWireIff | pocket-bridge/pocket_bridge/config.py:417-442 | The same for every readable container whose nested containers are found right. |
| PhpCount.CountExact | pocket-bridge/pocket_bridge/config.py:417-442 | The count is the number of entries, whatever the header claims and whatever quotes payloads hold, when the braces are found right at every level. |
| PhpCount.SkipContent | pocket-bridge/pocket_bridge/config.py:390-414 | A skip over a string, a scalar or foreign value, or a braced value ends behind it. |
| PhpCount.SkipRender | pocket-bridge/pocket_bridge/config.py:390-414 | Skipping a readable value lands where reading it lands. |
| PhpCount.ScannerAgrees | pocket-bridge/pocket_bridge/config.py:346-442 | On a quote-free canonical print the scanner finds the outer braces and counts exactly the entries the reader reads. |
| PhpSession.FixIsCanonical | pocket-bridge/pocket_bridge/config.py:754-762 | Every readable text of a complete session is repaired to its canonical print and its tail kept. |
| PhpSession.FixIdempotent | pocket-bridge/pocket_bridge/config.py:754-762 | Repairing a repaired session changes nothing. |
| PhpSession.ForceHeaderIs | pocket-bridge/pocket_bridge/config.py:844-852 | On every unwrapped text a forced count replaces exactly what stands before the first opening brace, if the text has a session's header and the scanner finds a closing brace, and otherwise changes nothing. |
| PhpSession.ForceHeaderExact | pocket-bridge/pocket_bridge/config.py:834-852 | On a container the result is the container with that count if and only if no brace opens in its header; quotes in payloads do not matter. |
| PhpSession.ForceHeaderHarmless | pocket-bridge/pocket_bridge/config.py:834-852 | Forcing any count never changes value, rest or repair flag of what is parsed, on every readable container without a brace in its header. |
| PhpSession.BraceInName | pocket-bridge/pocket_bridge/config.py:834-852 | An object whose class name holds braces, on which forcing a header changes what is parsed. |
| PhpSession.CountFixHarmless | pocket-bridge/pocket_bridge/config.py:765-788 | Nor does the count fallback. |
| PhpSession.CountFixExact | pocket-bridge/pocket_bridge/config.py:765-788 | With integer keys, foreign values and blanks between tokens included, the fallback writes the exact number of entries over the unchanged body, if and only if each required name stands in it between quotes and there are at least four entries. |
| PhpSession.CountFixIdempotent | pocket-bridge/pocket_bridge/config.py:765-788 | On every text it accepts, the fallback leaves its own output alone. |
| PhpSession.NormalizeFixedPoint | pocket-bridge/pocket_bridge/config.py:855-910 | When the first candidate that can be repaired is repaired strictly, escaped input included, normalising the result returns it, unless it holds an escaped quote. |
| PhpSession.NormalizeRefused | pocket-bridge/pocket_bridge/config.py:855-910 | A session text that nothing repairs is returned trimmed, and again unchanged. |
| PhpEscapes.NormalizeFixedIff | pocket-bridge/pocket_bridge/config.py:855-910 | Normalising a trimmed session text returns it if and only if none of its unescaped forms can be repaired and the text is its own repair or beyond repair. |
| PhpEscapes.StrictFixedIff | pocket-bridge/pocket_bridge/config.py:855-910 | A strict repair is a fixed point of normalisation if and only if none of its unescaped forms can be repaired; always when it holds no escaped quote. |
| PhpEscapes.AttemptSlashes | pocket-bridge/pocket_bridge/config.py:754-788 | No repair, strict or fallback, adds a backslash. |
| PhpEscapes.EscapeIsTakenOff | pocket-bridge/pocket_bridge/config.py:869-890 | On every complete session whose first payload is an escaped quote and the only backslash, the canonical text is its own repair and normalising changes it. |
| PhpEscapes.EscapedSession | pocket-bridge/pocket_bridge/config.py:869-890 | There is such a session. |
| PhpUnescape.UnescapeEscape | pocket-bridge/pocket_bridge/config.py:869-876 | One round of unescaping undoes one escaping of quotes and backslashes, on any text. |
| PhpUnescape.EscapedBeyond | pocket-bridge/pocket_bridge/config.py:754-788 | No repair, strict or fallback, takes a text that is still escaped. |
| PhpUnescape.UnescapesThree | pocket-bridge/pocket_bridge/config.py:855-910 | A repairable session without backslashes is repaired as well when it arrives escaped, up to three times; escaped more often it is returned as it came. |
| PhpFallback.FallbackRepairs | pocket-bridge/pocket_bridge/config.py:754-788 | When a blank between tokens, an integer key or a foreign value blocks the strict parser, the strict repair refuses and the candidate's repair is exactly the count repair. |
| PhpFallback.ReadableRefused | pocket-bridge/pocket_bridge/config.py:754-788 | A text with a readable header that the strict repair refuses has entries that do not read or lack a required field. |
| PhpFallback.RepairedAgainIff | pocket-bridge/pocket_bridge/config.py:754-788 | The strict repair takes the result of the count repair if and only if its entries read and are complete, and returns it if and only if they were canonical and counted right. |
| PhpFallback.CountFixFixedIff | pocket-bridge/pocket_bridge/config.py:855-910 | A count repair is a fixed point of normalisation if and only if no unescaped form of the entries can be repaired and the header was readable, or the entries do not read or lack a required field, or they were canonical and counted right. |
| PhpFallback.NormalizeFallbackIff | pocket-bridge/pocket_bridge/config.py:855-910 | For every input on the fallback path, escaped input included, normalising twice is normalising once under exactly that condition on the form repaired first. |
| PhpFallback.NormalizedTwice | pocket-bridge/pocket_bridge/config.py:855-910 | On all complete readable items with a wrong declared length or a repeated key behind a count that is no number, the first normalisation corrects the count alone and the second the items. |
| PhpFallback.StaleSession | pocket-bridge/pocket_bridge/config.py:855-910 | A concrete such session. |
| PhpSanitize.CanonicalSafe | pocket-bridge/pocket_bridge/config.py:600-626 | A canonical flat session with the required and only allowed fields, and a hash or nothing after it, is accepted by the strict client. |
| PhpSanitize.RebuiltIsSafe | pocket-bridge/pocket_bridge/config.py:629-751 | Whenever the sanitizer rebuilds, its result is accepted, declares its exact count and keeps the trailing hash. |
| PhpSanitize.SanitizedSafeIff | pocket-bridge/pocket_bridge/config.py:629-751 | The result is accepted if and only if the text has a header and was safe already, or is complete enough and a session id was found to rebuild with. |
| PhpSanitize.RebuiltKeepsFields | pocket-bridge/pocket_bridge/config.py:560-751 | Every allowed scalar field that the normal form parses to is in the rebuilt session with its own value. |
| PhpRescue.RebuiltFromParsed | pocket-bridge/pocket_bridge/config.py:667-724 | Each field of a rebuilt session that parsed is its own scalar, else the caller's, else the default. |
| PhpRescue.RebuiltIff | pocket-bridge/pocket_bridge/config.py:650-709 | A session that parses is rebuilt if and only if it has a header, the strict client does not take its normal form, it is not merely short of fields, and it or the caller has a non-empty session_id; otherwise the normal form is returned. |
| PhpRescue.RescuesField | pocket-bridge/pocket_bridge/config.py:560-578 | In a text that does not parse, whatever stands around it, an allowed scalar at the first place that names it is in the rebuilt session with its own value; a session_id that is not empty makes it rebuilt. |
| PhpRescue.RescuesBlocked | pocket-bridge/pocket_bridge/config.py:560-751 | So of readable items in front of a foreign value nothing is lost but the foreign value. |
| PhpRescue.RescuesNoOther | pocket-bridge/pocket_bridge/config.py:560-719 | A field such a text never names comes from the caller, or else is the default. |
| PhpRescue.ParsedHashKept | pocket-bridge/pocket_bridge/config.py:592-597 | A session that parses keeps exactly the hash that follows it, blanks aside. |
| PhpRescue.RescuedHashKept | pocket-bridge/pocket_bridge/config.py:683-686 | A session that does not parse keeps the hash at its very end, if there is one. |
| PhpRescue.RebuiltInOrder | pocket-bridge/pocket_bridge/config.py:472-478 | A rebuilt session has its fields in the fixed order. |
| PhpRescue.RustSafeIff | pocket-bridge/pocket_bridge/config.py:600-626 | Of all readable containers the strict client takes exactly the flat, complete arrays with right count and lengths, allowed fields only, and nothing but a hash behind. |
| PhpRescue.PutInPlace | pocket-bridge/pocket_bridge/config.py:258-260 | A field takes its place at the end, or the place of the one it replaces. |
| PhpRescue.LastItemCounts | pocket-bridge/pocket_bridge/config.py:258-260 | Of several items under one key the last one counts. |
| SlotRuns.BudgetHolds | pocket-bridge/pocket_bridge/bridge.py:1447-1522 | In every interleaving open secondaries and handshakes in flight exceed the budget by at most the releases that hit a handshake in flight; without those the budget holds and the primary has no secondary client. |
| SlotRuns.DisciplineKeepsBudget | pocket-bridge/pocket_bridge/bridge.py:1447-1522 | While no release hits a handshake in flight, as when a reader releases its own client or was awaited before, the budget holds in every interleaving. |
| SlotRuns.ExceedsIff | pocket-bridge/pocket_bridge/bridge.py:1447-1522 | From any reachable state some continuation without a further such release exceeds the budget if and only if more is outstanding than allowed or a handshake has lost its reservation. |
| SlotRuns.OverlapOvershoots | pocket-bridge/pocket_bridge/bridge.py:1507-1522 | The bound is tight in the model: one release in mid-handshake would let two readers open on a budget of one. |
| SlotRuns.RefusedIffFull | pocket-bridge/pocket_bridge/bridge.py:1447-1456 | A symbol is refused if and only if no secondary is open and handshakes take the whole budget. |
| SlotRuns.EvictsLeastActive | pocket-bridge/pocket_bridge/bridge.py:1372-1411 | An eviction takes an open reader such that every other had its last tick or its subscription no earlier than either stamp of the victim, and those opened before it strictly later; never the primary or the arming symbol. It goes everywhere, every other reader stays as it was, and once disconnected it is parked and the symbol reserved. |
| SlotHistory.LastTickRecorded | pocket-bridge/pocket_bridge/bridge.py:1574-1576 | In every run a symbol's last tick is that of its last TickSeen step, and it has none if and only if there was none. |
| SlotHistory.SubscriptionRecorded | pocket-bridge/pocket_bridge/bridge.py:2102 | In every run a symbol is subscribed, with the stamp of the last time, if and only if no release, release of all or eviction has ended it. |
| SlotHistory.EachStepMoves | pocket-bridge/pocket_bridge/bridge.py:1389-1522 | In every run each step opens and closes clients, starts and ends handshakes, reserves and frees slots, parks readers and moves coroutines exactly as told, and touches no other symbol. |
| Slots.LeastActiveSpec | pocket-bridge/pocket_bridge/bridge.py:1388 | The victim search returns the first reader of least activity. |
| Slots.StepKeepsInv | pocket-bridge/pocket_bridge/bridge.py:1426-1522 | Every step keeps clients, reservations and handshakes consistent. |
| ReaderSlots.SlotBook.FindVictim | pocket-bridge/pocket_bridge/bridge.py:1381-1388 | The loop over open readers finds the specified victim. |
| ReaderSlots.SlotBook.ReserveSlot | pocket-bridge/pocket_bridge/bridge.py:1447-1459 | The stretch up to the first await reserves, starts an eviction or refuses exactly as the step does. |
| ReaderSlots.SlotBook.TakeOutReader | pocket-bridge/pocket_bridge/bridge.py:1389-1397 | Taking the victim out changes its entries and no other reader's. |
| ReaderSlots.SlotBook.FinishEviction | pocket-bridge/pocket_bridge/bridge.py:1398-1459 | Once the victim is disconnected it is parked and the slot reserved for the arming symbol. |
| ReaderSlots.SlotBook.SlotsFree | pocket-bridge/pocket_bridge/bridge.py:1353-1370 | The early test passes exactly for the primary, a symbol with a client or task, spare budget or an evictable reader. |
| ReaderSlots.SlotBook.FinishHandshake | pocket-bridge/pocket_bridge/bridge.py:1498-1505 | The reservation goes on success, failure and cancellation alike; the client is registered only on success. |
| ReaderSlots.SlotBook.ReleaseReader | pocket-bridge/pocket_bridge/bridge.py:1507-1522 | A release removes only its own symbol's client and reservation. |
| ReaderSlots.SlotBook.ReleaseEveryClient | pocket-bridge/pocket_bridge/bridge.py:2677-2707 | Releasing all empties the clients as the step does. |
| OptionTree.BinomialAmericanPrice | ai-engine/app/knowledge/book_hull.py:119-155 | Invalid exactly on the refused inputs, the payoff without time, else the American value at the root, which is the best over all ways of exercising (OptionPolicies.AmericanIsBest). |
| OptionTree.RollBack | ai-engine/app/knowledge/book_hull.py:149-154 | One layer overwritten in place holds the recursive values of that layer, the rest of the array is untouched. |
| OptionTree.UpProbability | ai-engine/app/knowledge/book_hull.py:142 | The clamped probability is in [0, 1], reproduces the growth factor whenever that lies between down and up, and is 0 below and 1 above. |
| OptionPolicies.AmericanIsBest | ai-engine/app/knowledge/book_hull.py:139-155 | At every node no way of exercising earns more than the American value, and one earns exactly that; earnings are discounted means of payoffs. |
| OptionPolicies.BestEarns | ai-engine/app/knowledge/book_hull.py:151-154 | Stopping wherever holding is worth no more earns the American value. |
| OptionPolicies.EuropeanNeverStops | ai-engine/app/knowledge/book_hull.py:139-152 | The European value is what never stopping early earns. |
| OptionPolicies.AmericanIsLeast | ai-engine/app/knowledge/book_hull.py:149-155 | Whatever pays the exercise and buys the discounted mean of the next values at every node is worth at least the American value. |
| OptionPolicies.AmericanCovers | ai-engine/app/knowledge/book_hull.py:149-155 | The American value does both, so it is the least. |
| OptionTree.AmericanDominates | ai-engine/app/knowledge/book_hull.py:152-154 | At every node the American value is at least the European one and at least immediate exercise. |
| OptionTree.PutCallParity | ai-engine/app/knowledge/book_hull.py:139-154 | European call minus put is spot minus discounted strike at every node. |
| OptionTree.CallNotExercised | ai-engine/app/knowledge/book_hull.py:152-154 | Without dividend, with a rate of at least zero, a call is never better exercised. |
| OptionTree.AmericanCallIsEuropean | ai-engine/app/knowledge/book_hull.py:139-155 | Then the American call equals the European call at every node. |
| OptionTree.PlainCallIsEuropean | ai-engine/app/knowledge/book_hull.py:139-155 | The call price returned for a strike of at least zero, no dividend, a rate of at least zero and a reachable growth factor is the European value. |
| OptionTree.CallsAgreeIffStrikeNonNegative | ai-engine/app/knowledge/book_hull.py:134-155 | With a positive rate and time left they agree if and only if the strike is not negative. |
| OptionTree.FairIffUnclamped | ai-engine/app/knowledge/book_hull.py:139-143 | The tree prices the underlying fairly if and only if the probability was not clamped. |
| OptionTree.AmericanBounded | ai-engine/app/knowledge/book_hull.py:149-155 | An American put never exceeds its strike, an American call never the spot. |
| OptionTree.PutExercisedEarly | ai-engine/app/knowledge/book_hull.py:152-154 | A concrete put worth strictly more when exercised early. |
| Accuracy.LedgersAreNewest | ai-engine/app/services/accuracy_tracker.py:146-150 | After any log the window is the newest outcomes of all and each ledger the newest of its own class. |
| Accuracy.SinkingIff | ai-engine/app/services/accuracy_tracker.py:166-168 | The slack in the trigger test never decides: it fires if and only if wins are under 96 in 100, for windows below ten billion. |
| Accuracy.GateCountsRaises | ai-engine/app/services/accuracy_tracker.py:169-183 | The gate is the contract plus one step per raise, never above the ceiling, so no run raises it more than three times. |
| Accuracy.GateRatchets | ai-engine/app/services/accuracy_tracker.py:152-173 | The gate never falls and rises at most one step per outcome. |
| Accuracy.RaisedIff | ai-engine/app/services/accuracy_tracker.py:161-173 | An outcome raises the gate if and only if the window is full, ten outcomes passed since the last raise, the window sinks and fewer than three raises happened. |
| Accuracy.RaisedAt | ai-engine/app/services/accuracy_tracker.py:162-165 | Every raise, the first included, comes at a full window and at least ten outcomes after the last one or the start. |
| Accuracy.RaisesApart | ai-engine/app/services/accuracy_tracker.py:162-165 | Any two raises are at least ten outcomes apart and neither precedes a full window. |
| Accuracy.BinsPartition | ai-engine/app/services/accuracy_tracker.py:318-335 | Every confidence on the scale falls into exactly one calibration bin, every other into none; wins alike. |
| Accuracy.BinsCoverIff | ai-engine/app/services/accuracy_tracker.py:305-346 | The bins account for the whole ledger if and only if all confidences are on the scale, and then their wins add up. |
| Accuracy.RateInRange | ai-engine/app/services/accuracy_tracker.py:293-301 | A reported factor win rate is between 0 and 1, and the wins over the aligned outcomes to the nearest ten-thousandth, ties to the even one. |
| LearningFacts.LedgerForIs | ai-engine/app/services/accuracy_tracker.py:131-133 | An outcome goes to the ledger of the class it names in either case, to that of its symbol when it names none, and to OTC when it names no class there is. |
| LearningFacts.RateIs | ai-engine/app/services/accuracy_tracker.py:286-301 | A factor is reported with the number of outcomes it was aligned in and the wins among them, rounded. |
| LearningFacts.CurveIs | ai-engine/app/services/accuracy_tracker.py:81-81 | The five bands hold exactly the outcomes of their confidence and the wins of those, and are evidence from thirty on. |
| Accuracy.AccuracyTracker.RecordOutcome | ai-engine/app/services/accuracy_tracker.py:108-150 | Recording appends one outcome to the log under its class, an unknown class being OTC, and the store stays the one its log determines. |
| Accuracy.AccuracyTracker.MaybeAutoRaise | ai-engine/app/services/accuracy_tracker.py:152-173 | The watchdog changes only the gate and its cooldown, as specified. |
| Accuracy.AccuracyTracker.CalibrationCurve | ai-engine/app/services/accuracy_tracker.py:305-346 | The loop builds the specified curve; a name that is no class has an empty ledger. |
| Accuracy.AccuracyTracker.FactorWinRates | ai-engine/app/services/accuracy_tracker.py:274-303 | In any order of factors, each one named in the class ledger gets its aligned count and the win rate over exactly those outcomes. |
| AssetWeights.NormaliseDistributes | ai-engine/app/services/asset_type_weights.py:167-175 | Whatever it is given, normalising returns non-negative weights that sum to 1. |
| LearningFacts.NormaliseRatio | ai-engine/app/services/asset_type_weights.py:167-175 | Normalising keeps the weights in the ratio they were given in; when nothing is given, or less, it gives the shared weights. |
| AssetWeights.NormaliseClampsIff | ai-engine/app/services/asset_type_weights.py:167-175 | Clamping from above as well would change nothing if and only if no weight exceeds 1 or all positive weights are equal. |
| AssetWeights.ClampExample | ai-engine/app/services/asset_type_weights.py:167-175 | Weights that the description and the code treat differently. |
| AssetWeights.TiltedIsDistribution | ai-engine/app/services/asset_type_weights.py:246-266 | The learned weights are positive and sum to 1. |
| AssetWeights.TiltedWithin | ai-engine/app/services/asset_type_weights.py:218-259 | An uninformed factor keeps its prior exactly; an informed one stays within 3/5 and 5/3 of it. |
| AssetWeights.TiltedOrder | ai-engine/app/services/asset_type_weights.py:229-259 | Relative to their priors, informed weights are in the order of their win rates. |
| LearningFacts.TiltedRatio | ai-engine/app/services/asset_type_weights.py:229-259 | Two factors with ten aligned outcomes have learned weights in the ratio of prior times one plus half the win rate above a coin flip. |
| LearningFacts.PriorFor | ai-engine/app/services/asset_type_weights.py:110-183 | The prior of a name is that of the class it spells in either case, else the OTC one; the five weights of each. |
| AssetWeights.LearnsIff | ai-engine/app/services/asset_type_weights.py:206-266 | Something is learned if and only if thirty outcomes are resolved, an informed factor is five points off a coin flip and two informed factors disagree. |
| AssetWeights.Listen | ai-engine/app/services/asset_type_weights.py:217-239 | The first loop finds exactly the informed factors, their multipliers, and whether the largest tilt is informative. |
| AssetWeights.Redistribute | ai-engine/app/services/asset_type_weights.py:241-259 | The second loop yields the specified redistribution and a positive mass. |
| AssetWeights.LearnedWeightsFor | ai-engine/app/services/asset_type_weights.py:186-266 | What is learned depends on the class's own newest outcomes alone; the normalisation at the end changes nothing. |
| AssetWeights.WeightsFor | ai-engine/app/services/asset_type_weights.py:269-273 | The weights in use are learned when earned, else the prior: always positive with sum 1. |
| Posteriors.RecordedSane | ai-engine/app/services/bayesian_ensemble.py:71-83 | Any record keeps both parts at least 1 and their sum under 4001. |
| Posteriors.RunStaysSane | ai-engine/app/services/bayesian_ensemble.py:62-83 | So does any run of records, and the mean stays strictly between 1/4001 and 1. |
| Posteriors.RunCounts | ai-engine/app/services/bayesian_ensemble.py:71-79 | Until the cap is reached each part is its prior plus the weight of the observations on its side, in whatever order they came. |
| Posteriors.BeyondCap | ai-engine/app/services/bayesian_ensemble.py:79-83 | Beyond the cap each part is its share of 4000, or 1 where that is less. |
| Posteriors.RecordMovesMean | ai-engine/app/services/bayesian_ensemble.py:75-80 | Below the cap a correct record raises the mean and a wrong one lowers it. |
| Posteriors.CorrectLowersMeanIff | ai-engine/app/services/bayesian_ensemble.py:75-83 | A correct record of weight w lowers the mean if and only if w (4000 beta - alpha) < alpha (alpha - 3999 beta). |
| Posteriors.CorrectCanLower | ai-engine/app/services/bayesian_ensemble.py:80-83 | A run of two correct records from the momentum prior whose second lowers the mean. |
| Posteriors.BetaPosterior.Record | ai-engine/app/services/bayesian_ensemble.py:71-83 | The in-place update is the specified one; a weight of zero or less changes nothing. |
| BayesEnsemble.KeysDistinct | ai-engine/app/services/bayesian_ensemble.py:137-141 | Two state keys are equal if and only if market and regime are, whatever the regime's text contains. |
| BayesEnsemble.SameStateIff | ai-engine/app/services/bayesian_ensemble.py:133-141 | Weights and fusion read the same state if and only if the regime's name is not blank. |
| BayesWeights.MarketIs | ai-engine/app/services/bayesian_ensemble.py:125-128 | Blanks around a market's name and its case do not matter; what names no market is OTC. |
| BayesWeights.RegimeIs | ai-engine/app/services/bayesian_ensemble.py:130-131 | Blanks around a regime do not matter, its letters are lowered, and no name is unknown. |
| BayesEnsemble.WeightsDistribute | ai-engine/app/services/bayesian_ensemble.py:182-199 | Component weights are positive and sum to 1. |
| BayesWeights.WeightsRatio | ai-engine/app/services/bayesian_ensemble.py:182-199 | Any two weights stand in the ratio of posterior mean times favour. |
| BayesWeights.FavourTable | ai-engine/app/services/bayesian_ensemble.py:156-180 | The favours of the five components by market, and the factors by which each regime multiplies them. |
| BayesWeights.FreshWeights | ai-engine/app/services/bayesian_ensemble.py:45-52 | The exact weights a fresh ensemble starts from on an OTC market in no known regime. |
| BayesWeights.MeanMovesWeights | ai-engine/app/services/bayesian_ensemble.py:182-199 | When one posterior moves, its component's weight rises, and every other falls, if and only if its mean rises. |
| BayesWeights.RecordMovesWeights | ai-engine/app/services/bayesian_ensemble.py:71-199 | Below the cap a correct record raises its component's weight and lowers every other, and a wrong one does the opposite. |
| BayesWeights.FusionOfEvidence | ai-engine/app/services/bayesian_ensemble.py:221-271 | The combined score is the mean of the usable scores, and the precision of the posterior means, by posterior mean times favour; the agreement is the strength on the winning side over that of those not neutral. |
| BayesEnsemble.CombinedBalanced | ai-engine/app/services/bayesian_ensemble.py:254-262 | Every fusion uses positive weights with sum 1, scores in [-1, 1] and means strictly between 0 and 1. |
| BayesEnsemble.FusionBounds | ai-engine/app/services/bayesian_ensemble.py:264-277 | Combined score, agreement and precision stay on their scales, so the confidence is their plain blend, strictly between 0 and 100: its clamp never acts. Released if and only if not blocked, confident and convinced enough. |
| BayesEnsemble.FullAgreementIff | ai-engine/app/services/bayesian_ensemble.py:265-270 | Agreement is 1 if and only if the combined score is not zero and no active score opposes it. |
| BayesEnsemble.ConvictionRedundant | ai-engine/app/services/bayesian_ensemble.py:273-282 | At thresholds of at least 50 plus 50 times the conviction floor, as shipped, the conviction test never decides a release. |
| BayesEnsemble.NegationSymmetry | ai-engine/app/services/bayesian_ensemble.py:202-312 | Negating all scores flips the combined score and the scores and nothing else. |
| BayesEnsemble.AdaptiveBayesianEnsemble.RegimeStates | ai-engine/app/services/bayesian_ensemble.py:143-154 | Looking a state up, and creating it on first use, changes no belief. |
| BayesEnsemble.AdaptiveBayesianEnsemble.WeightsFor | ai-engine/app/services/bayesian_ensemble.py:182-199 | The weights are those of the state's beliefs, and asking changes none. |
| BayesEnsemble.AdaptiveBayesianEnsemble.Combine | ai-engine/app/services/bayesian_ensemble.py:202-312 | The fusion is the specified one under the beliefs of the outcome's own market and regime, and changes none. |
| BayesEnsemble.AdaptiveBayesianEnsemble.RecordOutcome | ai-engine/app/services/bayesian_ensemble.py:315-362 | Rejected exactly on the invalid inputs; otherwise exactly the judged components of the outcome's own market and regime move, and all posteriors stay sane. |
| Relay.NextKeeps | pocket-bridge/pocket_bridge/relay.py:148-238 | Every step keeps each outbox in order and the register consistent. |
| RelayRuns.QueuesKeepOrder | pocket-bridge/pocket_bridge/relay.py:55-82 | In every run a queue is within its cap, frames leave in the order they came, and each is delivered, lost with a writer, in flight or queued. |
| RelayRuns.DeliveredInOrder | pocket-bridge/pocket_bridge/relay.py:65-73 | In every run, writer restarts included, the delivered frames are those taken in with some left out: never reordered or repeated. |
| RelayRuns.DeliveredIsPrefixIff | pocket-bridge/pocket_bridge/relay.py:61-73 | Nothing is left out if and only if nothing was delivered after the first loss: always for a stamped frame lost first, and for one with a number of its own unless the very same frame is enqueued again. |
| RelayExamples.RestartSkips | pocket-bridge/pocket_bridge/relay.py:61-73 | A run in which a failed write and a restart deliver the second frame without the first. |
| RelayRuns.NothingSkipped | pocket-bridge/pocket_bridge/relay.py:213-238 | In every run the outbox of a registered client has refused a frame if and only if a suspended broadcast still holds that client with that outbox. |
| RelayRuns.SendDecides | pocket-bridge/pocket_bridge/relay.py:213-224 | After a direct send in any run the client is registered if and only if it was new or had room, its outbox has then taken the frame, and no other client comes or goes. |
| RelayExamples.FullClientLingers | pocket-bridge/pocket_bridge/relay.py:232-238 | For every cap, a run after which a client that refused a frame is still registered. |
| RelayRuns.NumbersAreEmissions | pocket-bridge/pocket_bridge/relay.py:125-137 | In every run the frames an outbox was offered, and took in, are exactly the emissions that addressed it, and had room, each with its emission's number. |
| RelayRuns.NumbersIncrease | pocket-bridge/pocket_bridge/relay.py:125-137 | Stamped numbers strictly increase on every outbox. |
| RelayRuns.FramesUnchanged | pocket-bridge/pocket_bridge/relay.py:125-137 | Every frame an outbox took in carries the kind and payload of a frame that a step handed in, and its own number or that of its emission. |
| RelayRuns.CandlesCounted | pocket-bridge/pocket_bridge/relay.py:226-230 | The candles counted are the broadcasts of that kind that found a client. |
| RelayMoves.EachStepMoves | pocket-bridge/pocket_bridge/relay.py:139-238 | In every run each step moves the register and the writers exactly as told: who comes, with which outbox, who leaves, and which writers start and stop. |
| RelayRuns.GapIff | pocket-bridge/pocket_bridge/relay.py:125-137 | Between consecutive stamped frames there is a gap if and only if a number was spent on another client, on a frame with its own number, or on a refused frame; without the first two, a gap is a refused frame. |
| RelayExamples.GapWithoutDrop | pocket-bridge/pocket_bridge/relay.py:125-137 | A run after which a client saw numbers 1 and 3 although nothing was dropped. |
| RelayServers.Outbox.Put | pocket-bridge/pocket_bridge/relay.py:75-82 | The frame is queued exactly when there is room, otherwise counted as overflow. |
| RelayServers.Outbox.StartWriter | pocket-bridge/pocket_bridge/relay.py:61-63 | A writer is started only when none is at work. |
| RelayServers.RelayServer.RegisterClient | pocket-bridge/pocket_bridge/relay.py:148-154 | A client keeps its outbox or gets a fresh one; no other is touched. |
| RelayServers.RelayServer.SendFrame | pocket-bridge/pocket_bridge/relay.py:213-224 | The objects move as the specified send. |
| RelayServers.RelayServer.BroadcastFrame | pocket-bridge/pocket_bridge/relay.py:226-238 | The loop over clients offers the frame to each once, the first full one goes at once, and the rest to be removed are returned in order; without clients nothing is counted. |
| RelayServers.RelayServer.ResumeBroadcast | pocket-bridge/pocket_bridge/relay.py:236-238 | The next full client goes with the outbox it has by then. |
| RelayServers.RelayServer.DisconnectClient | pocket-bridge/pocket_bridge/relay.py:208-210 | The socket goes, and the outbox its handler started with stops. |

## Left out

- Relay.NextKeeps: a handler's end may name any outbox as the one it started with, and suspended broadcasts resume in any order.
- PhpCount.CountWireIff: when a nested container's own braces are missed, nothing is said of the count.
- RelayRuns.DeliveredIsPrefixIff: two equal frames with a number of their own are not told apart, so nothing is said when such a frame is lost first and enqueued again.
- FeedLate.LateExact: for a constant interval; after a switch, ticks already pending may be dropped later.
- PhpRescue.RescuesField: nothing is said of a field whose first place in the text is not followed by a scalar that reads.
- PhpSession.ForceHeaderHarmless: one way only for an object whose class name opens a brace: the result can still parse alike by coincidence, so ForceHeaderExact gives the exact condition on the text and BraceInName a case where the parse changes.
- SlotRuns.BudgetHolds: one primary for a whole run and at most one handshake in flight per symbol.
- SlotRuns.OverlapOvershoots: with one reader task per symbol no caller makes such a release (bridge.py:2076, 2087 and 3021 run in the reader, 2610-2617 and 3369-3377 await its end); the done-callback at 2595-2597, which could forget a newer task of the same symbol, is not modelled.
- Candle engine: price None, decimal rounding at 28 digits (prices are reals, the dedup key takes the rendered texts), failed decimal conversions, symbol and asset-type labels, `hold_price`, `handle_gap`, snapshots, threads and locks.
- Session codec: floats (`d:` is an error of the reader here, so what is said of texts the strict reader refuses is for texts without them), the digit limit of int(), recursion limits, UTF-8 decoding and non-ASCII blanks and digits, unwrapping of quotes, frames, JSON, URLs and embedded sessions (what is said of normalising and forcing is for texts that start with their header), the error on a negative forced count, logging; clock and user agent are parameters.
- Slots: semaphores, jitter, SDK handshakes (a handshake succeeds, fails or is cancelled), the control client, reader-task identity, `_skipped` and `_reader_symbols`.
- Option tree: exp and sqrt (up factor, growth and discount are parameters), floating-point rounding, Black-Scholes, Monte Carlo.
- Learning: rounding of reported weights and scores, the binary rounding of win rates (ties here are those of the exact ratio), reports by tier, profiles and rationale texts, the symbol-to-class rules (a parameter), reason texts of a suppressed fusion, case folding and blanks outside ASCII, threads.
- Relay: sockets, HTTP health, JSON, `ts_utc`, subscribe callbacks, a queue cap of zero (unbounded in asyncio).
- core-backend, client-app, execution-engine, the quant pipeline, collectors, other book modules and model training are not part of this model.
