# Verified models of the quant library's stateful cores

This project models, in Dafny, the parts of the Python library whose value lies in an exact contract:
components that keep redundant state, take shortcuts, or allocate greedily, and must still agree with a
simple definition. Money, prices and weights are exact (`int` or `real`); a missing number (NaN, or an
infinity where the code treats it alike) is `None`, and where NaN and infinities act differently an
extended real (`ExtendedReals`).

Code that changes things step by step is a class or a method with loops, proved against a specification
function; what the library promises is then proved about that function, over every input, run or reachable
state.  Modules called `...Laws`, and lemmas like them elsewhere, say what a step means without naming how it is computed.

| files | what they cover |
|---|---|
| `L3Spec`, `L3Laws`, `L3Book`, `L3Feed` | the order-by-order book with O(1) queue-position tracking, and its wire feed |
| `BigEndian`, `Itch`, `ItchLayout`, `ItchRoundTrip` | the Nasdaq TotalView-ITCH 5.0 codec ("Add Order", "Modify Order" and "Trade" message sections) |
| `FixText`, `FixMessage`, `FixRoundTrip`, `FixDecoder`, `FixStream` | FIX 4.4 framing and codec (FIX 4.4 Volume 1, "FIX Tag=Value Syntax"; Volume 2, "Checksum Calculation") |
| `FixNumbers`, `FixOrderEncoder`, `FixExecReport` | wire numbers, the order encoder and the execution-report flyweight |
| `EwmaCovariance`, `CorrelationMoments`, `LeadLag`, `PairForms`, `Decay` | decayed covariance estimators and their bounds |
| `LinearAlgebra`, `HedgeSpec`, `HedgeOptimizer` | the L1 coordinate-descent hedge |
| `Greedy`, `FxTierBook`, `HftSor`, `CrbRouter` | greedy routing and its optimality, from one threshold-price argument |
| `StableSort`, `ProportionalAllocation`, `Schedulers` | largest-remainder allocation, VWAP and TWAP schedules |
| `DarkPool`, `SpreadExecution`, `PortfolioExecutor` | execution state machines |
| `ExecutionModels`, `ExecutionLaws`, `BacktestSpec`, `BacktestLaws`, `Backtester` | the execution-aware backtester and its pluggable models |
| `Nbbo`, `Ring`, `Vpin`, `Indicators`, `IndicatorLaws`, `StreamingIndicators`, `Drawdown` | caches and shortcuts against the simple thing |
| `BusinessCalendar`, `CsvSplit` | business-day walks; RFC 4180 section 2 field splitting |
| `Outcomes`, `ExtendedReals`, `RealAlgebra`, `RealSums`, `IntegerSums`, `SeqFacts`, `SetFacts` | shared vocabulary and arithmetic |

`dafny verify dfyconfig.toml` checks everything.

## Where the code differs from what is said about it

- The FIX decoder does not give the same result for every fragmentation: with at least 20 undrained bytes and
  the first delimiter at the very end (or one byte before the end, followed by `9`), polling indexes past the
  buffer. `FixDecoder.SegmentationExactly` is the exact condition on the cuts of any byte stream,
  `FixDecoder.IndexErrorExactly` that of one poll, and `FixDecoder.CutAfterDelimiterFails` a stream. Streams of
  this library's own encoded messages never meet it (`FixStream.AnySegmentation`).
- Queue tracking is exact only while executions hit the head of their level. `L3Spec.StepExact` is the exact
  condition per event; without it tracking can understate but never overstate
  (`L3Spec.OffHeadExecutionUnderstates` is a feed).
- The backtester's promise that a run never overdraws needs a worst-case cost of at most 1 (100%), which
  nothing checks: under instant execution no run overdraws if and only if the rate is at most 1
  (`BacktestSpec.OverdraftExactly`, with a run for every higher rate in `BacktestSpec.OverdrawnRun`).
- The fallback risk factor of the basket overlay, 1 plus the volatility regime, is documented as lying in
  [1, 2] but has no upper clamp: it does exactly where no volatility is above 1
  (`PortfolioExecutor.FactorRange`). An infinite volatility moreover lifts its symbol out of the interval
  budget; `PortfolioExecutor.CapacityExactly` says when the budget still binds.
- A dark-pool order partly filled down to below its own minimum can never trade again, and only such an order
  (`DarkPool.TradesAgainExactly`; `DarkPool.StrandingReachable` is a run that gets there).
- An ITCH price survives the wire exactly when it is a signed 32-bit tick
  (`ItchRoundTrip.PriceSurvivesExactly`).

## Model

| member | source | states |
|---|---|---|
| `L3Spec.TrackerIsExact` | src/quantfinlib/marketdata/l3_book_builder.py:223-309 | From an empty book, after any run of unsigned events in which every execution hits the head of its level, each tracked order's shares-ahead is exactly the quantity queued before it and lies between 0 and its level's total |
| `L3Spec.RunExact` | src/quantfinlib/marketdata/l3_book_builder.py:182-309 | Exact tracking is preserved by every whole run that keeps price-time priority, through adds, cancels, deletes, replaces, executions, track and untrack |
| `L3Spec.RunBounded` | src/quantfinlib/marketdata/l3_book_builder.py:182-309 | Without any priority assumption, after every run the book is consistent and each tracked shares-ahead is between 0 and the true value |
| `L3Spec.StepExact` | src/quantfinlib/marketdata/l3_book_builder.py:223-309 | One event keeps tracking exact if and only if the crediting rule takes from every tracked row just what was ahead of it |
| `L3Spec.StepBounded` | src/quantfinlib/marketdata/l3_book_builder.py:223-309 | One event never lets a tracked value exceed the truth or go negative |
| `L3Spec.StepConsistent` | src/quantfinlib/marketdata/l3_book_builder.py:152-340 | Every event keeps the book consistent: arrival order, positive quantities, one order per reference, rows that match live orders |
| `L3Spec.ReduceExact` | src/quantfinlib/marketdata/l3_book_builder.py:223-236 | A reduction keeps tracking exact if and only if no row is miscredited |
| `L3Spec.HeadCreditsRightly` | src/quantfinlib/marketdata/l3_book_builder.py:295-309 | An execution at the head of its level is always credited rightly |
| `L3Spec.OffHeadExecutionUnderstates` | src/quantfinlib/marketdata/l3_book_builder.py:295-309 | Three adds and a track from the empty book, then an execution away from the head: the tracker understates by what was executed, so exactness needs the feed to keep priority |
| `L3Spec.TrackKeeps` | src/quantfinlib/marketdata/l3_book_builder.py:255-277 | Starting to track walks the FIFO once and is exact from then on; it disturbs no other row |
| `L3Spec.UntrackKeeps` | src/quantfinlib/marketdata/l3_book_builder.py:279-284 | Untracking keeps the book consistent and the remaining rows as they were |
| `L3Spec.InsertKeeps` | src/quantfinlib/marketdata/l3_book_builder.py:152-180 | A new order joins behind every other order of its level, so no tracked value changes |
| `L3Laws.CancelLaw` | src/quantfinlib/marketdata/l3_book_builder.py:191-236 | A cancel of an order takes its shares off it and leaves level, arrival and place; a cancel of all it has or more removes it; every other order, and every other tracked reference, stays |
| `L3Laws.ExecuteLaw` | src/quantfinlib/marketdata/l3_book_builder.py:182-236 | So does an execution |
| `L3Laws.DeleteLaw` | src/quantfinlib/marketdata/l3_book_builder.py:200-208 | A delete removes exactly its order, whatever its quantity, and its tracking |
| `L3Laws.AddLaw` | src/quantfinlib/marketdata/l3_book_builder.py:144-180 | An add with a price on the ladder, shares, a new positive reference and room joins the back with the next arrival number; any other changes nothing |
| `L3Laws.ReplaceLaw` | src/quantfinlib/marketdata/l3_book_builder.py:210-221 | A replace removes the old order for good and puts the new reference last, on the old side with the given shares and price, unless it is not acceptable |
| `L3Laws.TradeLaw` | src/quantfinlib/marketdata/l3_book_builder.py:249-253 | A trade print leaves the book alone |
| `L3Laws.TrackLaw` | src/quantfinlib/marketdata/l3_book_builder.py:259-277 | Tracking succeeds exactly for a tracked reference or a resting order while the table has room, and disturbs no other row |
| `L3Laws.UntrackLaw` | src/quantfinlib/marketdata/l3_book_builder.py:279-285 | Untracking removes exactly its own row |
| `L3Laws.TakenOpen` | src/quantfinlib/marketdata/l3_book_builder.py:182-236 | After an execution or a cancel the order has its shares less those taken, at least 0, and every other order what it had |
| `L3Laws.ReplacedOpen` | src/quantfinlib/marketdata/l3_book_builder.py:210-221 | After a replace the old reference has nothing, the new one the given shares if acceptable, every other what it had |
| `L3Laws.TallyLaw` | src/quantfinlib/marketdata/l3_book_builder.py:152-253 | Each event on a resting order counts under its own kind and no other, each on an unknown reference under that, adds and trades under theirs |
| `L3Book.L3BookBuilder.constructor` | src/quantfinlib/marketdata/l3_book_builder.py:65-113 | The empty book satisfies the class invariant tying orders, FIFO levels, totals, occupancy and best ticks together |
| `L3Book.L3BookBuilder.OnAdd` | src/quantfinlib/marketdata/l3_book_builder.py:141-150 | The event acts as the book specification says and every redundant structure stays in agreement |
| `L3Book.L3BookBuilder.InsertOrder` | src/quantfinlib/marketdata/l3_book_builder.py:152-180 | Refused exactly on band, duplicate, capacity or size grounds with the matching counter; otherwise appended at the level's tail |
| `L3Book.L3BookBuilder.OnExecute` | src/quantfinlib/marketdata/l3_book_builder.py:182-189 | The order keeps what was not executed and goes once nothing is left, every other order keeps its quantity, rows behind it are credited, and the event counters tell which case it was |
| `L3Book.L3BookBuilder.OnCancel` | src/quantfinlib/marketdata/l3_book_builder.py:191-197 | Exactly the cancelled shares come off that order, all of it once they reach its quantity, and no other order changes |
| `L3Book.L3BookBuilder.OnDelete` | src/quantfinlib/marketdata/l3_book_builder.py:199-206 | The order is gone and every other order keeps its quantity, or the reference was unknown and only its counter moves |
| `L3Book.L3BookBuilder.OnReplace` | src/quantfinlib/marketdata/l3_book_builder.py:208-221 | The old order is gone; the new one stands with the given shares on the same side exactly when it is acceptable; nothing else changes |
| `L3Book.L3BookBuilder.ReduceOrder` | src/quantfinlib/marketdata/l3_book_builder.py:223-236 | The reduction clamps to the resting quantity and reports whether the reference was live |
| `L3Book.L3BookBuilder.RemoveWhole` | src/quantfinlib/marketdata/l3_book_builder.py:238-243 | Removing a node is reducing it by all it has, in arrival order |
| `L3Book.L3BookBuilder.RemoveNode` | src/quantfinlib/marketdata/l3_book_builder.py:311-332 | FIFO, totals, occupancy, best tick and reference map agree after the unlink, also when the level empties |
| `L3Book.L3BookBuilder.OnTrade` | src/quantfinlib/marketdata/l3_book_builder.py:245-249 | A trade print moves the last-trade tick and its counter and nothing else |
| `L3Book.L3BookBuilder.OnTrack` | src/quantfinlib/marketdata/l3_book_builder.py:255-277 | A live, not yet tracked order gets a row of exactly the shares queued before it; the result says whether the reference is tracked afterwards |
| `L3Book.L3BookBuilder.WalkAhead` | src/quantfinlib/marketdata/l3_book_builder.py:267-271 | The FIFO walk adds up exactly the quantity queued before the order |
| `L3Book.L3BookBuilder.Untrack` | src/quantfinlib/marketdata/l3_book_builder.py:279-284 | Only the row of that reference goes |
| `L3Book.L3BookBuilder.SharesAhead` | src/quantfinlib/marketdata/l3_book_builder.py:286-293 | -1 exactly when untracked; otherwise the true shares ahead while tracking is exact, and never above it while it is bounded |
| `L3Book.L3BookBuilder.QtyAtTick` | src/quantfinlib/marketdata/l3_book_builder.py:348-354 | The level total is the sum of the live quantities at that price |
| `L3Book.L3BookBuilder.OpenQuantity` | src/quantfinlib/marketdata/l3_book_builder.py:356-359 | The live quantity of a reference, 0 when it is not live |
| `L3Book.L3BookBuilder.BestBid` | src/quantfinlib/marketdata/l3_book_builder.py:334-343 | The highest occupied tick with its total, or the empty-side sentinel exactly when no bid rests |
| `L3Book.L3BookBuilder.BestAsk` | src/quantfinlib/marketdata/l3_book_builder.py:338-346 | The lowest occupied tick with its total, or the empty-side sentinel exactly when no offer rests |
| `L3Book.L3BookBuilder.Snapshot` | src/quantfinlib/marketdata/l3_book_builder.py:361-389 | The listed levels are positive, strictly best first, and no better occupied level is missing |
| `L3Book.L3BookBuilder.OnMessage` | src/quantfinlib/marketdata/l3_book_builder.py:115-139 | A message for this instrument acts as the direct call of the event it encodes and consumes its length; anything else changes nothing |
| `L3Feed.WireIsUnsigned` | src/quantfinlib/marketdata/l3_book_builder.py:115-139 | Whatever is on the wire, share counts are unsigned |
| `L3Feed.AddIsAdd` | src/quantfinlib/marketdata/l3_book_builder.py:115-150 | The encoded message, read from any position of a buffer, is exactly that book event with its arguments |
| `L3Feed.ExecutedIsExecute` | src/quantfinlib/marketdata/l3_book_builder.py:115-139 | The encoded message, read from any position of a buffer, is exactly that book event with its arguments |
| `L3Feed.CancelIsCancel` | src/quantfinlib/marketdata/l3_book_builder.py:115-139 | The encoded message, read from any position of a buffer, is exactly that book event with its arguments |
| `L3Feed.DeleteIsDelete` | src/quantfinlib/marketdata/l3_book_builder.py:115-139 | The encoded message, read from any position of a buffer, is exactly that book event with its arguments |
| `L3Feed.ReplaceIsReplace` | src/quantfinlib/marketdata/l3_book_builder.py:115-139 | The encoded message, read from any position of a buffer, is exactly that book event with its arguments |
| `L3Feed.TradeIsTrade` | src/quantfinlib/marketdata/l3_book_builder.py:115-139 | The encoded message, read from any position of a buffer, is exactly that book event with its arguments |
| `ItchRoundTrip.AddRoundTrip` | src/quantfinlib/marketdata/itch_codec.py:198-209 | Every getter of the view returns the argument the encoder was given, over the whole width of each field |
| `ItchRoundTrip.ExecutedRoundTrip` | src/quantfinlib/marketdata/itch_codec.py:211-219 | Every getter of the view returns the argument the encoder was given, over the whole width of each field |
| `ItchRoundTrip.CancelRoundTrip` | src/quantfinlib/marketdata/itch_codec.py:221-228 | Every getter of the view returns the argument the encoder was given, over the whole width of each field |
| `ItchRoundTrip.DeleteRoundTrip` | src/quantfinlib/marketdata/itch_codec.py:230-236 | Every getter of the view returns the argument the encoder was given, over the whole width of each field |
| `ItchRoundTrip.ReplaceRoundTrip` | src/quantfinlib/marketdata/itch_codec.py:238-247 | Every getter of the view returns the argument the encoder was given, over the whole width of each field |
| `ItchRoundTrip.TradeRoundTrip` | src/quantfinlib/marketdata/itch_codec.py:249-260 | Every getter of the view returns the argument the encoder was given, over the whole width of each field |
| `Itch.EncodeAdd` | src/quantfinlib/marketdata/itch_codec.py:198-209 | Writes exactly the message's bytes at the offset, leaves the rest of the buffer alone and returns the wire length |
| `Itch.EncodeExecuted` | src/quantfinlib/marketdata/itch_codec.py:211-219 | Writes exactly the message's bytes at the offset, leaves the rest of the buffer alone and returns the wire length |
| `Itch.EncodeCancel` | src/quantfinlib/marketdata/itch_codec.py:221-228 | Writes exactly the message's bytes at the offset, leaves the rest of the buffer alone and returns the wire length |
| `Itch.EncodeDelete` | src/quantfinlib/marketdata/itch_codec.py:230-236 | Writes exactly the message's bytes at the offset, leaves the rest of the buffer alone and returns the wire length |
| `Itch.EncodeReplace` | src/quantfinlib/marketdata/itch_codec.py:238-247 | Writes exactly the message's bytes at the offset, leaves the rest of the buffer alone and returns the wire length |
| `Itch.EncodeTrade` | src/quantfinlib/marketdata/itch_codec.py:249-260 | Writes exactly the message's bytes at the offset, leaves the rest of the buffer alone and returns the wire length |
| `Itch.PutHeader` | src/quantfinlib/marketdata/itch_codec.py:188-195 | Type, locate, zero tracking number and 48-bit time land in the first eleven bytes |
| `Itch.StockRoundTrip` | src/quantfinlib/marketdata/itch_codec.py:60-74 | A symbol of at most eight bytes unpacks to itself without its padding |
| `BigEndian.PackAt` | src/quantfinlib/marketdata/itch_codec.py:188-260 | Byte k of an n-byte field is the field divided by 256^(n-1-k), modulo 256: most significant first |
| `ItchLayout.TypeLetters` | src/quantfinlib/marketdata/itch_codec.py:26-56 | Message types are the letters A, F, E, X, D, U and P, the buy indicator B, with the lengths of the layouts |
| `ItchLayout.AddLayout` | src/quantfinlib/marketdata/itch_codec.py:198-208 | Which bytes of an add message hold which field |
| `ItchLayout.ExecutedLayout` | src/quantfinlib/marketdata/itch_codec.py:211-218 | The same for an execution |
| `ItchLayout.CancelLayout` | src/quantfinlib/marketdata/itch_codec.py:221-227 | The same for a cancel |
| `ItchLayout.DeleteLayout` | src/quantfinlib/marketdata/itch_codec.py:230-235 | The same for a delete |
| `ItchLayout.ReplaceLayout` | src/quantfinlib/marketdata/itch_codec.py:238-246 | The same for a replace |
| `ItchLayout.TradeLayout` | src/quantfinlib/marketdata/itch_codec.py:249-260 | The same for a trade |
| `Itch.PackStock` | src/quantfinlib/marketdata/itch_codec.py:60-67 | The shifting loop packs the space-padded symbol big-endian |
| `ItchRoundTrip.PriceSurvivesExactly` | src/quantfinlib/marketdata/itch_codec.py:156-163 | For any integer price in any message type with a price: it reads back as itself if and only if it is a signed 32-bit tick, and otherwise as the tick that agrees modulo 2^32 |
| `ItchRoundTrip.AddPriceSurvives` | src/quantfinlib/marketdata/itch_codec.py:198-211 | So for the add encoder, whatever the other arguments |
| `ItchRoundTrip.ReplacePriceSurvives` | src/quantfinlib/marketdata/itch_codec.py:236-247 | So for the replace encoder |
| `ItchRoundTrip.TradePriceSurvives` | src/quantfinlib/marketdata/itch_codec.py:249-260 | So for the trade encoder |
| `FixRoundTrip.EncodeRoundTrip` | src/quantfinlib/fix/fix_message.py:113-147 | Parsing an encoded message passes length and checksum and returns exactly its header and body fields, in order, for distinct non-framing tags and delimiter-free values |
| `FixRoundTrip.FrameRoundTrip` | src/quantfinlib/fix/fix_message.py:241-262 | Framing any well-formed field list and parsing it back gives the list between its framing fields |
| `FixRoundTrip.EncodedTells` | src/quantfinlib/fix/fix_message.py:241-262 | Read back by tag, an encoded message carries type, sender, target, sequence number, times and duplicate mark of its header and every body field |
| `FixRoundTrip.UnmarkedIsUnmarked` | src/quantfinlib/fix/fix_message.py:246-256 | A message that is no duplicate, or names no original time, has no such field |
| `FixRoundTrip.FrameIsStandard` | src/quantfinlib/fix/fix_message.py:257-262 | The frame starts with version and body length, and its last field is tag 10 with the sum of all bytes before it modulo 256 in three digits (FIX 4.4 Volume 2, "Checksum Calculation") |
| `FixMessage.ParseMessage` | src/quantfinlib/fix/fix_message.py:113-147 | The parsing loop computes the specified result: same fields, same error for each malformed frame |
| `FixDecoder.FixDecoder.Feed` | src/quantfinlib/fix/fix_decoder.py:28-31 | Appends exactly the given slice to the buffer |
| `FixDecoder.FixDecoder.Poll` | src/quantfinlib/fix/fix_decoder.py:33-75 | One poll acts on the framing verdict: waits with the buffer unchanged, raises, or cuts off exactly one message |
| `FixDecoder.PollAll` | src/quantfinlib/fix/fix_decoder.py:33-75 | Polling until nothing comes gives the drained messages and leaves the undrained bytes |
| `FixDecoder.VerdictStable` | src/quantfinlib/fix/fix_decoder.py:33-75 | A complete or corrupt verdict does not depend on bytes that arrive later |
| `FixDecoder.DrainAppend` | src/quantfinlib/fix/fix_decoder.py:33-75 | Draining a stream in two pieces is draining it in one |
| `FixDecoder.SegmentationExactly` | src/quantfinlib/fix/fix_decoder.py:28-75 | The exact condition, for any byte stream: a segmentation gives the messages, error and remaining buffer of the uncut stream if and only if none of its cuts is bad, that is, leaves at least 20 undrained bytes whose first delimiter is last (or last but one before a 9) while more follows than such a delimiter's single 9 |
| `FixDecoder.SegmentationInvisible` | src/quantfinlib/fix/fix_decoder.py:28-75 | A segmentation without such a cut is invisible, for any byte stream, valid or corrupt |
| `FixDecoder.SameStatusExactly` | src/quantfinlib/fix/fix_decoder.py:28-75 | The two sessions end with the same status if and only if no cut leaves such bytes or the whole stream does |
| `FixDecoder.TrapExactly` | src/quantfinlib/fix/fix_decoder.py:33-75 | Draining a stream raises the index error if and only if the bytes behind its last well-formed message end on the delimiter in that way |
| `FixDecoder.BehindTrap` | src/quantfinlib/fix/fix_decoder.py:33-75 | After a poll past the end, the stream fed whole gives the same result if and only if nothing follows, or a single 9 behind a last delimiter |
| `FixDecoder.IndexErrorExactly` | src/quantfinlib/fix/fix_decoder.py:33-75 | A poll reads past the buffer if and only if at least 20 bytes are there and the first delimiter is the last byte, or the last but one before a 9 |
| `FixDecoder.CutAfterDelimiterFails` | src/quantfinlib/fix/fix_decoder.py:33-75 | A concrete stream that decodes in one piece but raises when cut right after a delimiter |
| `FixStream.FrameComplete` | src/quantfinlib/fix/fix_decoder.py:33-75 | A frame within the length cap is recognised at its exact length |
| `FixStream.PrefixNeedsMore` | src/quantfinlib/fix/fix_decoder.py:33-75 | Every proper prefix of a frame waits for more and leaves the buffer unchanged |
| `FixStream.DrainWire` | src/quantfinlib/fix/fix_decoder.py:33-75 | A concatenation of encoded messages yields exactly those messages in order and empties the buffer |
| `FixStream.AnySegmentation` | src/quantfinlib/fix/fix_decoder.py:28-75 | However a concatenation of encoded messages is cut into chunks, feeding and polling yields exactly those messages in order |
| `FixNumbers.PriceRoundTrip` | src/quantfinlib/fix/fix_order_encoder.py:147-156 | Every non-negative mantissa and number of decimals reads back as itself |
| `FixNumbers.NegativePriceReads` | src/quantfinlib/fix/fix_parse.py:53-64 | A leading minus sign negates the mantissa and keeps the decimals: the readers accept more than the encoder writes |
| `FixNumbers.PriceMantissa` | src/quantfinlib/fix/fix_parse.py:53-64 | The digit loop reads the signed scaled value of the slice |
| `FixNumbers.PriceDecimals` | src/quantfinlib/fix/fix_parse.py:67-72 | The number of characters after the first point, 0 without one |
| `FixNumbers.ParseLong` | src/quantfinlib/fix/fix_parse.py:15-34 | Digits before the point; an error exactly on a minus sign there or a non-zero fraction |
| `FixNumbers.ParseLongOrElse` | src/quantfinlib/fix/fix_parse.py:37-50 | The number when the slice is non-empty and all digits, the fallback otherwise |
| `FixNumbers.QuantityRoundTrip` | src/quantfinlib/fix/fix_parse.py:15-34 | A rendered quantity reads back, with or without a zero fraction |
| `FixOrderEncoder.TimeOfDayReads` | src/quantfinlib/fix/fix_order_encoder.py:167-174 | The rendered time of day determines the millisecond and holds no delimiter |
| `FixOrderEncoder.FixOrderEncoder.RefreshDate` | src/quantfinlib/fix/fix_order_encoder.py:158-165 | The cached date prefix is always the date of the cached day |
| `FixOrderEncoder.FixOrderEncoder.RenderTimestamp` | src/quantfinlib/fix/fix_order_encoder.py:167-174 | With the cache refreshed, the timestamp is the one rendered from scratch |
| `FixOrderEncoder.FixOrderEncoder.Assemble` | src/quantfinlib/fix/fix_order_encoder.py:106-118 | The piecewise body is the rendering of the order's field list |
| `FixOrderEncoder.FixOrderEncoder.Encode` | src/quantfinlib/fix/fix_order_encoder.py:98-125 | The message parses back to fields that tell the order by tag (54 is 1 exactly for a buy, 44 and 40 by the limit, 38, 11, 55, 52, 60); errors keep the previous message |
| `FixOrderEncoder.OrderTells` | src/quantfinlib/fix/fix_order_encoder.py:76-122 | What the parsed message tells by tag: side 1 exactly for a buy and 2 for a sell, type 1 exactly without a price and 2 with one, a price field exactly then and reading as mantissa and decimals, quantity, order id and sequence number as their numbers, the symbol, and both times to the millisecond |
| `FixExecReport.ScanRendered` | src/quantfinlib/fix/fix_exec_report_view.py:57-122 | Scanning a rendered field list inside a buffer is folding over its fields, value by value |
| `FixExecReport.GetterIsField` | src/quantfinlib/fix/fix_exec_report_view.py:57-122 | In an accepted report with distinct tags every getter returns what its own field reads to, regardless of the others, and a value's position is where its field was rendered |
| `FixExecReport.SymbolIsRendered` | src/quantfinlib/fix/fix_exec_report_view.py:115-168 | After an accepted report the symbol comparison holds for exactly the rendered symbol, and for none when there is no symbol field |
| `FixExecReport.ReportReads` | src/quantfinlib/fix/fix_exec_report_view.py:84-122 | Getter by getter: order id, quantities and price come back as the numbers the encoder rendered under their tags, type, status and side as their first character |
| `FixExecReport.FixExecReportView.Wrap` | src/quantfinlib/fix/fix_exec_report_view.py:57-122 | The cursor loop computes the specified scan of any bytes: verdict, getters and errors |
| `FixExecReport.FixExecReportView.SymbolEquals` | src/quantfinlib/fix/fix_exec_report_view.py:160-168 | True exactly when a symbol was seen and its bytes in place are the given ones |
| `EwmaCovariance.UpdateKeepsPsd` | src/quantfinlib/microstructure/ewma_covariance.py:72-105 | A sample keeps the triangle positive semidefinite: no weighting of the basket has negative variance |
| `EwmaCovariance.FeedIsPsd` | src/quantfinlib/microstructure/ewma_covariance.py:72-105 | So does any sequence of samples |
| `EwmaCovariance.EntryIsDecayed` | src/quantfinlib/microstructure/ewma_covariance.py:72-105 | Closed form of every entry after any samples: the first product weighed lambda^(m-1), the k-th (1-lambda) lambda^(m-1-k) |
| `EwmaCovariance.VarianceIsDecayed` | src/quantfinlib/microstructure/ewma_covariance.py:72-144 | A portfolio's variance is the same decayed mean of its own squared returns |
| `EwmaCovariance.CovarianceBound` | src/quantfinlib/microstructure/ewma_covariance.py:107-130 | cov(i,j)^2 <= var(i) var(j) in every reachable state, so the correlation clamp never binds |
| `EwmaCovariance.VarianceNonNegative` | src/quantfinlib/microstructure/ewma_covariance.py:113-119 | Every variance is non-negative |
| `EwmaCovariance.EulerIsQuad` | src/quantfinlib/microstructure/ewma_covariance.py:146-171 | The weighted marginal covariances add up to the portfolio variance |
| `EwmaCovariance.SharesSumToOne` | src/quantfinlib/microstructure/ewma_covariance.py:146-171 | Marginal contributions to a positive variance sum to exactly 1 |
| `EwmaCovariance.TriClosed` | src/quantfinlib/microstructure/ewma_covariance.py:62-70 | The row offsets of the flat triangle are i(i+1)/2 |
| `EwmaCovariance.EwmaCovariance.OnReturns` | src/quantfinlib/microstructure/ewma_covariance.py:72-105 | Too short is refused, a non-finite return drops the sample, otherwise the sample joins the history every entry is the decayed sum of, and the matrix stays positive semidefinite |
| `EwmaCovariance.EwmaCovariance.Covariance` | src/quantfinlib/microstructure/ewma_covariance.py:107-111 | The weighted sum of the products of the samples taken so far, the newest weighing 1 - lambda and the first seeding, within the bound |
| `EwmaCovariance.EwmaCovariance.PortfolioVariance` | src/quantfinlib/microstructure/ewma_covariance.py:132-144 | The decayed sum of the squared portfolio returns of the samples, never negative |
| `EwmaCovariance.EwmaCovariance.MarginalContribution` | src/quantfinlib/microstructure/ewma_covariance.py:146-171 | Total variance; shares that sum to 1 when it is positive and zeros otherwise |
| `CorrelationMoments.UpdateKeepsDefinite` | src/quantfinlib/microstructure/lead_lag_estimator.py:77-87 | One decayed update keeps the two-by-two moment matrix positive semidefinite for any values and any weight in [0,1] |
| `CorrelationMoments.SeriesIsBounded` | src/quantfinlib/alpha/alpha_ensemble.py:84-97 | After any series the covariance obeys cov^2 <= var var |
| `CorrelationMoments.MomentsAreDecayed` | src/quantfinlib/microstructure/lead_lag_estimator.py:77-87 | Closed form of means, variances and covariance after any series: each input weighs alpha (1-alpha)^age |
| `Decay.DecayedStep` | src/quantfinlib/microstructure/ewma_covariance.py:97-99 | One more blend is one more step of that decay |
| `CorrelationMoments.CorrelationWithinOne` | src/quantfinlib/alpha/alpha_ensemble.py:120-125 | The squared correlation the estimators report never exceeds 1 |
| `LeadLag.LagGrows` | src/quantfinlib/microstructure/lead_lag_estimator.py:77-87 | One more sample extends the moments at every lag by the pair (leader that many samples ago, follower now) |
| `LeadLag.AlignedPush` | src/quantfinlib/microstructure/lead_lag_estimator.py:70-76 | The ring keeps the newest leader returns addressable by age across wrap-around |
| `LeadLag.LeadLagEstimator.OnSample` | src/quantfinlib/microstructure/lead_lag_estimator.py:62-87 | Every lag's moments are those of the correctly aligned pairs of all valid samples; a missing return changes nothing |
| `LeadLag.LeadLagEstimator.LagsAreBounded` | src/quantfinlib/microstructure/lead_lag_estimator.py:89-94 | Every lag's moments obey the bound in every reachable state |
| `LeadLag.LeadLagEstimator.LagsAreDecayed` | src/quantfinlib/microstructure/lead_lag_estimator.py:62-87 | Every lag's moments are those, of the pairs (leader k samples ago, follower now) |
| `HedgeSpec.Gap` | src/quantfinlib/crb/hedge_optimizer.py:41-141 | The objective of two hedges differs by a non-negative quadratic term plus the first-order slope |
| `HedgeSpec.ResidualAt` | src/quantfinlib/crb/hedge_optimizer.py:144-154 | Each factor's exposure after hedging is what was there plus what its loadings of the hedges add |
| `HedgeOptimizer.CostIsCharged` | src/quantfinlib/crb/hedge_optimizer.py:104-127 | The L1 term is the cost weight times unit costs times absolute hedges |
| `HedgeOptimizer.SettledMeans` | src/quantfinlib/crb/hedge_optimizer.py:128-133 | Settled means no coordinate moved by 1e-10 of 1 or of the largest hedge |
| `HedgeSpec.RelaxedMinimises` | src/quantfinlib/crb/hedge_optimizer.py:111-123 | For symmetric positive semidefinite risk the soft-threshold update is the exact minimiser of its coordinate |
| `HedgeSpec.RelaxedDescends` | src/quantfinlib/crb/hedge_optimizer.py:104-127 | No coordinate update increases risk plus cost |
| `HedgeSpec.SweepDescends` | src/quantfinlib/crb/hedge_optimizer.py:104-130 | No sweep increases it |
| `HedgeSpec.StillIsStationary` | src/quantfinlib/crb/hedge_optimizer.py:104-130 | A sweep that changes nothing satisfies the first-order condition in every coordinate and direction |
| `HedgeSpec.StillIsGlobal` | src/quantfinlib/crb/hedge_optimizer.py:104-130 | A sweep that changes nothing is a global minimum of risk plus L1 cost |
| `HedgeOptimizer.GramMatrix` | src/quantfinlib/crb/hedge_optimizer.py:84-91 | The precomputed matrix is L' Sigma L |
| `HedgeOptimizer.SigmaL` | src/quantfinlib/crb/hedge_optimizer.py:77-83 | The precomputed product is Sigma L |
| `HedgeOptimizer.Drifts` | src/quantfinlib/crb/hedge_optimizer.py:92-95 | The precomputed vector is L' Sigma e |
| `HedgeOptimizer.SweepOnce` | src/quantfinlib/crb/hedge_optimizer.py:102-130 | The in-place pass is one sweep; its two measures are the largest move and the largest notional; a negative diagonal is a true finding |
| `HedgeOptimizer.Hedge` | src/quantfinlib/crb/hedge_optimizer.py:41-141 | Returns the hedge after the first sweep that settles, fails only if no allowed sweep does, never accuses a semidefinite matrix, is never worse than no hedge, and is globally optimal if one more sweep would not move it |
| `HedgeOptimizer.PostHedge` | src/quantfinlib/crb/hedge_optimizer.py:144-154 | The residual exposure e + L h |
| `Greedy.ThresholdIsCheapest` | src/quantfinlib/fx/fx_tier_book.py:122-162 | Filling what is cheaper than a threshold price and nothing dearer is a cheapest way to place the same total |
| `FxTierBook.SweepIsOptimal` | src/quantfinlib/fx/fx_tier_book.py:122-162 | On best-first ladders the sweep's plan costs no more than any feasible plan of the same size |
| `FxTierBook.Frontier` | src/quantfinlib/fx/fx_tier_book.py:164-172 | The first dealable tier from a position on, or the end of the ladder |
| `FxTierBook.SelectBest` | src/quantfinlib/fx/fx_tier_book.py:138-148 | The LP with the best frontier price, or none exactly when every ladder is exhausted |
| `FxTierBook.FxTierBook.Sweep` | src/quantfinlib/fx/fx_tier_book.py:106-162 | None exactly when the size is not positive or dealable capacity is short; otherwise it takes exactly the size, reports cost and each LP's part, and over best-first ladders no feasible plan is better |
| `FxTierBook.FxTierBook.BuyersLiftAsks` | src/quantfinlib/fx/fx_tier_book.py:122-135 | Buys sweep what LPs ask, sells what they bid |
| `FxTierBook.FxTierBook.FullAmountPrice` | src/quantfinlib/fx/fx_tier_book.py:207-220 | The first tier whose clip covers the size, no earlier one does; none exactly when no tier does; the best such price on best-first ladders |
| `FxTierBook.FxTierBook.Tier` | src/quantfinlib/fx/fx_tier_book.py:45-59 | Replaces one tier of one ladder; an index out of range changes nothing |
| `HftSor.InOrderIsCheapest` | src/quantfinlib/execution/hft_sor.py:64-106 | An allocation that fills venues in (all-in price, index) order is a cheapest one of its size, also against fractional ones |
| `HftSor.InOrderIsUnique` | src/quantfinlib/execution/hft_sor.py:64-106 | Size and order determine the allocation completely |
| `HftSor.RouteIsBest` | src/quantfinlib/execution/hft_sor.py:64-106 | In money: no allocation of the same size costs a buyer less, fees added, or brings a seller more, fees taken off |
| `HftSor.UsableQuote` | src/quantfinlib/execution/hft_sor.py:84-95 | A quote is usable exactly if it is there, shows size and is no worse than the limit |
| `HftSor.HftSor.BuyersLiftAsks` | src/quantfinlib/execution/hft_sor.py:84-95 | Buys route over asks, sells over bids |
| `HftSor.HftSor.Select` | src/quantfinlib/execution/hft_sor.py:84-99 | The first unused routable venue of best all-in price |
| `HftSor.HftSor.Route` | src/quantfinlib/execution/hft_sor.py:64-106 | Routes the smaller of the quantity and the eligible displayed size, in price-index order, within displayed sizes; entries past the venues are untouched |
| `HftSor.HftSor.VenueDown` | src/quantfinlib/execution/hft_sor.py:58-62 | A venue that is down offers nothing to any order and the others offer what they did |
| `CrbRouter.FilledIsCheapest` | src/quantfinlib/crb/crb_router.py:84-111 | An allocation full below a threshold and empty above it has the lowest expected cost |
| `CrbRouter.Route` | src/quantfinlib/crb/crb_router.py:64-111 | Invalid arguments are refused; otherwise the notional is conserved exactly, internal crossing comes first, and no feasible allocation over internal, dark and lit has a lower expected cost |
| `StableSort.OrderIncreasing` | src/quantfinlib/crb/crb_router.py:95-95 | The visiting order is sorted by key with ties by index |
| `ProportionalAllocation.RemainderFits` | src/quantfinlib/execution/vwap_scheduler.py:68-74 | The remainder is below the number of slices and is handed only to slices with a positive fractional part, so the index never wraps |
| `ProportionalAllocation.AllocateProportionally` | src/quantfinlib/execution/vwap_scheduler.py:49-75 | Exact total; each slice the floor or ceiling of its exact share (zero weight gets zero); largest fractions first with ties by index; everything to the first slice when all weights are zero; an error on a negative weight or no slices |
| `Schedulers.Schedule` | src/quantfinlib/execution/vwap_scheduler.py:31-46 | Allocation plus offsets that start at 0, never decrease, stay inside the window and are even to the millisecond |
| `Schedulers.EqualSlices` | src/quantfinlib/execution/twap_scheduler.py:21-24 | Equal weights give the quotient everywhere and one more in the first total mod n slices |
| `Schedulers.Twap` | src/quantfinlib/execution/twap_scheduler.py:43-53 | TWAP slices differ by at most one share, the larger ones first |
| `DarkPool.ExecutedMeetsMinimum` | src/quantfinlib/execution/dark_pool_simulator.py:57-113 | Immediate fills total nothing or at least the order's minimum; every slice fits its resting order and meets that order's minimum; the queue stays in time order and loses exactly what traded |
| `DarkPool.SlicesExhaust` | src/quantfinlib/execution/dark_pool_simulator.py:99-111 | With quantity left over, every resting order traded in full or could not meet its minimum |
| `DarkPool.NothingMissed` | src/quantfinlib/execution/dark_pool_simulator.py:97-116 | When a crossing order still rests, nothing left on the other side could have filled more of it |
| `DarkPool.FirstInLine` | src/quantfinlib/execution/dark_pool_simulator.py:80-106 | Without a mid nothing crosses; with one, the first resting order gives what both sides allow if that meets both minimums, and nothing below its own |
| `DarkPool.NextInLine` | src/quantfinlib/execution/dark_pool_simulator.py:98-106 | When an order crosses, each resting order in turn gives the smaller of what is left and what it holds, or nothing below its minimum |
| `DarkPool.FillsName` | src/quantfinlib/execution/dark_pool_simulator.py:107-109 | Every fill names the incoming order on its side, a resting one on the other, its quantity and the mid |
| `DarkPool.SidesMeet` | src/quantfinlib/execution/dark_pool_simulator.py:80-117 | A buy takes from resting sells and joins the buys, a sell the other way round |
| `DarkPool.FillsInTime` | src/quantfinlib/execution/dark_pool_simulator.py:99-111 | Fills hit resting orders in id order at the mid |
| `DarkPool.FillsTotal` | src/quantfinlib/execution/dark_pool_simulator.py:107-109 | The fills add up to the executed slices |
| `DarkPool.ResidueIsStranded` | src/quantfinlib/execution/dark_pool_simulator.py:102-104 | Some order can hit a resting order if and only if it still holds at least its own minimum |
| `DarkPool.TradesAgainExactly` | src/quantfinlib/execution/dark_pool_simulator.py:47-117 | Over whole runs of quotes and submissions: a resting order can ever trade again if and only if it holds at least its own minimum |
| `DarkPool.StrandedForever` | src/quantfinlib/execution/dark_pool_simulator.py:47-117 | Whatever is quoted or submitted, an order below its own minimum keeps resting with the quantity it has |
| `DarkPool.StrandingReachable` | src/quantfinlib/execution/dark_pool_simulator.py:47-117 | From the empty pool, a quote, a sell of 100 with minimum 60 and a buy of 60 leave 40 in that state |
| `DarkPool.DarkPoolSimulator.DryRun` | src/quantfinlib/execution/dark_pool_simulator.py:87-96 | The dry run predicts exactly what the crossing loop executes |
| `DarkPool.DarkPoolSimulator.Cross` | src/quantfinlib/execution/dark_pool_simulator.py:98-113 | The crossing loop executes exactly the specified slices |
| `DarkPool.DarkPoolSimulator.Submit` | src/quantfinlib/execution/dark_pool_simulator.py:57-117 | Whole effect of a submission, including refusal; per side, all submitted quantity is matched or resting after any run |
| `DarkPool.DarkPoolSimulator.OnQuote` | src/quantfinlib/execution/dark_pool_simulator.py:47-55 | The pool's next state under any quote sides, NaN and infinities included |
| `DarkPool.Reference` | src/quantfinlib/execution/dark_pool_simulator.py:47-55 | A mid exists exactly for two positive, finite, uncrossed and unlocked sides, and is halfway |
| `DarkPool.DarkPoolSimulator.RestingQty` | src/quantfinlib/execution/dark_pool_simulator.py:119-123 | Resting quantity is what was submitted on the side less what matched |
| `Nbbo.ScanFinds` | src/quantfinlib/marketdata/nbbo.py:91-116 | The scan finds the best price, the total size there and exactly the venues quoting it |
| `Nbbo.InsideIsUnique` | src/quantfinlib/marketdata/nbbo.py:91-116 | There is only one such inside |
| `Nbbo.InsideMeans` | src/quantfinlib/marketdata/nbbo.py:91-116 | In prices: the best bid is the highest shown, the best offer the lowest, each with exactly the venues there and the sum of their sizes |
| `Nbbo.OffInside` | src/quantfinlib/marketdata/nbbo.py:74-83 | A venue off the inside that stays strictly off it leaves the full scan's result alone |
| `Nbbo.Nbbo.Recompute` | src/quantfinlib/marketdata/nbbo.py:91-129 | The cache becomes the scan of the venue arrays; the result says whether price or size moved |
| `Nbbo.Nbbo.OnVenueQuote` | src/quantfinlib/marketdata/nbbo.py:62-84 | After any quote, fast path or not, the cache equals a full scan, and the result is true exactly when price or size at the inside changed |
| `Nbbo.Nbbo.OnVenueDown` | src/quantfinlib/marketdata/nbbo.py:86-89 | A venue that is down is in neither inside |
| `Vpin.SplitBlock` | src/quantfinlib/microstructure/vpin.py:76-94 | A one-sided block from an empty bucket is whole buckets of imbalance 1 and then the remainder, as splitting bucket by bucket gives |
| `Vpin.SplitConserves` | src/quantfinlib/microstructure/vpin.py:52-104 | Completed buckets and the open one hold exactly the traded volume |
| `Vpin.SplitAdds` | src/quantfinlib/microstructure/vpin.py:52-94 | Two trades of one aggressor are the same as their sum |
| `Vpin.SplitFractions` | src/quantfinlib/microstructure/vpin.py:96-104 | Every completed imbalance is a fraction and history only grows |
| `Vpin.SplitReads` | src/quantfinlib/microstructure/vpin.py:52-104 | Over any trades, each recorded imbalance times the bucket volume is the gap between what was bought and sold in that bucket's stretch of the tape, and the open bucket holds the rest |
| `Vpin.BucketReadsExactly` | src/quantfinlib/microstructure/vpin.py:96-99 | A bucket records 0 exactly when balanced and 1 exactly when one-sided |
| `Vpin.SplitStaysOpen` | src/quantfinlib/microstructure/vpin.py:64-74 | The open bucket always stays strictly below capacity |
| `Ring.MirrorsPush` | src/quantfinlib/microstructure/vpin.py:83-85 | Writing at the head keeps the ring equal to the last values of the unbounded history |
| `Vpin.Vpin.OnTrade` | src/quantfinlib/microstructure/vpin.py:52-94 | The trade joins the tape of which every recorded bucket is the gap between bought and sold volume over its stretch; a quantity that is not positive is refused |
| `Vpin.Vpin.RecordBlock` | src/quantfinlib/microstructure/vpin.py:76-94 | Recording at most one window of buckets shows the same last buckets as recording all of them |
| `Vpin.Vpin.Estimate` | src/quantfinlib/microstructure/vpin.py:106-112 | None until a bucket completes, then the mean imbalance of the last buckets, within [0,1] |
| `BacktestSpec.RunIsSound` | src/quantfinlib/backtest/execution_aware_backtester.py:153-290 | For any strategy, bars and contract-honouring model, after every bar: pending exit is 0 or the position, entered quantity is position plus exited, cash is accounted for by trades and by child fills, and it is not negative when the model's worst case is at most 1 and it sells at no negative price |
| `BacktestSpec.RunIsTimely` | src/quantfinlib/backtest/execution_aware_backtester.py:182-219 | No fill precedes its parent's signal, and under a last-look pricing model none is on the signal bar |
| `BacktestLaws.BarStarts` | src/quantfinlib/backtest/execution_aware_backtester.py:221-239 | A bar starts a stop-loss exit exactly when a position from an earlier bar, with no exit pending, trades down to its stop, a take-profit exit exactly when it does not but trades up to its target, and any parent of a signal behind it |
| `BacktestLaws.ParentsHaveReasons` | src/quantfinlib/backtest/execution_aware_backtester.py:153-290 | Over any run, every stop-loss or take-profit parent sits on such a bar, every entry on a buy signal, every signal exit on a sell signal |
| `BacktestLaws.HitsAreRecorded` | src/quantfinlib/backtest/execution_aware_backtester.py:153-239 | And every such bar leaves its exit in the run's records |
| `BacktestLaws.BuyOpens` | src/quantfinlib/backtest/execution_aware_backtester.py:241-255 | A buy opens an entry exactly when flat and the cash pays for one unit at the close with the worst case on top; its target is the most the cash pays for |
| `BacktestLaws.SellCloses` | src/quantfinlib/backtest/execution_aware_backtester.py:256-264 | A sell starts leaving the position exactly if there is one and none is being left, gives up an unfilled entry, and otherwise does nothing |
| `BacktestLaws.HoldChangesNothing` | src/quantfinlib/backtest/execution_aware_backtester.py:241-264 | A hold changes nothing |
| `BacktestLaws.TradeTells` | src/quantfinlib/backtest/execution_aware_backtester.py:274-290 | A closed trade's bars, average prices, quantity, profit, return and reason |
| `BacktestLaws.ForcedCloseTells` | src/quantfinlib/backtest/execution_aware_backtester.py:292-315 | The forced close sells all at the last close less the worst case, on the open exit or one of its own marked end of data |
| `BacktestSpec.FinalEquityIsProfit` | src/quantfinlib/backtest/execution_aware_backtester.py:292-315 | After the forced close nothing is held and final cash is the initial capital plus the profit of all trades, not negative under such a model |
| `BacktestSpec.OverdraftExactly` | src/quantfinlib/backtest/execution_aware_backtester.py:153-315 | Under instant execution no run, forced close included, ever overdraws if and only if the cost rate is at most 1 |
| `BacktestSpec.OverdrawnRun` | src/quantfinlib/backtest/execution_aware_backtester.py:153-315 | For every rate above 1 and every price, a run from capital for one unit over a flat bar buys it and ends below zero |
| `BacktestSpec.SolventNeverOverdraws` | src/quantfinlib/backtest/execution_aware_backtester.py:153-315 | Any model with a worst case of at most 1 and no negative sale price keeps cash non-negative in every run and at its forced close |
| `BacktestSpec.ForcedCloseOverdraws` | src/quantfinlib/backtest/execution_aware_backtester.py:301-311 | The forced close overdraws if and only if the cash does not cover what selling costs beyond the price |
| `BacktestSpec.ExitOverdraws` | src/quantfinlib/backtest/execution_aware_backtester.py:208-219 | So does an ordinary exit filled by an instant or a last-look model, at the model's own anchor |
| `BacktestSpec.BoughtKeeps` | src/quantfinlib/backtest/execution_aware_backtester.py:182-206 | Entry fills within the cut request keep every invariant and never overdraw |
| `BacktestSpec.SoldKeeps` | src/quantfinlib/backtest/execution_aware_backtester.py:208-219 | Exit fills keep every invariant, and a finished exit closes the round trip |
| `BacktestSpec.AffordableCosts` | src/quantfinlib/backtest/execution_aware_backtester.py:190-193 | The truncated affordable quantity costs at most the cash at the model's anchor and worst case |
| `BacktestSpec.StartEntryKeeps` | src/quantfinlib/backtest/execution_aware_backtester.py:241-255 | A new entry parent keeps every invariant and the model tracks its size |
| `BacktestSpec.StartExitKeeps` | src/quantfinlib/backtest/execution_aware_backtester.py:266-272 | So does a new exit parent for the whole position |
| `BacktestSpec.AbandonKeeps` | src/quantfinlib/backtest/execution_aware_backtester.py:257-264 | Cancelling the unfilled remainder, or abandoning an unfilled parent, keeps every invariant |
| `Backtester.ExecutionAwareBacktester.WorkEntry` | src/quantfinlib/backtest/execution_aware_backtester.py:182-206 | The cut request is executed and its fills booked as the state machine says |
| `Backtester.ExecutionAwareBacktester.WorkExit` | src/quantfinlib/backtest/execution_aware_backtester.py:208-219 | The pending exit is executed, booked, and closes the round trip when done |
| `Backtester.ExecutionAwareBacktester.CloseRoundTrip` | src/quantfinlib/backtest/execution_aware_backtester.py:274-290 | The trade record and the reset accumulators |
| `Backtester.ExecutionAwareBacktester.CheckRiskExits` | src/quantfinlib/backtest/execution_aware_backtester.py:221-236 | Stop before target against the average all-in entry, only after the entry bar and with no exit pending |
| `Backtester.ExecutionAwareBacktester.OnSignal` | src/quantfinlib/backtest/execution_aware_backtester.py:238-264 | Entry, exit, cancellation and abandonment exactly under their guards |
| `Backtester.ExecutionAwareBacktester.StartExit` | src/quantfinlib/backtest/execution_aware_backtester.py:266-272 | The exit parent, its pending quantity and the model notification |
| `Backtester.ExecutionAwareBacktester.ForceClose` | src/quantfinlib/backtest/execution_aware_backtester.py:292-315 | The remaining position leaves at the last close less the worst case |
| `Backtester.ExecutionAwareBacktester.OneBar` | src/quantfinlib/backtest/execution_aware_backtester.py:161-170 | One bar in order: open parents, risk exits, signal |
| `Backtester.ExecutionAwareBacktester.Execute` | src/quantfinlib/backtest/execution_aware_backtester.py:153-178 | The equity curve is cash plus position at each close and ends in the final cash, which is initial capital plus profit |
| `ExecutionModels.IcebergFloats` | src/quantfinlib/backtest/execution_models.py:113-136 | An iceberg shows something exactly while something remains; a fill is refused exactly outside the visible tranche and is subtracted exactly |
| `ExecutionModels.IcebergOrder.OnFill` | src/quantfinlib/backtest/execution_models.py:124-136 | Same for the mutable order; the result says whether a fresh tranche was loaded |
| `ExecutionModels.ParentIsTracked` | src/quantfinlib/backtest/execution_models.py:187-193 | Announcing a parent never raises and every nested iceberg then holds its size |
| `ExecutionModels.ExecuteKeepsContract` | src/quantfinlib/backtest/execution_models.py:76-88 | Every shipped model and nesting keeps the contract on every call: fills within the request, buys within the anchor times one plus the worst case, no exception, icebergs equal to what is pending, no last-look fill on the signal bar |
| `ExecutionModels.SlicedKeepsContract` | src/quantfinlib/backtest/execution_models.py:195-210 | The iceberg wrapper keeps the contract of what it wraps |
| `ExecutionModels.SliceCapFits` | src/quantfinlib/backtest/execution_models.py:200-205 | A bar's execution is within the request, the visible tranche and the participation cap |
| `ExecutionModels.TermsPositive` | src/quantfinlib/backtest/execution_models.py:178-185 | Anchor and worst case are what sizing needs: positive and delegated through wrappers |
| `ExecutionLaws.InstantFills` | src/quantfinlib/backtest/execution_models.py:82-91 | Instant execution fills everything at the close, plus the cost rate for a buy and less it for a sell |
| `ExecutionLaws.LastLookDecides` | src/quantfinlib/backtest/execution_models.py:283-305 | Last look holds on the signal bar, rejects and counts exactly when the bar ran in the taker's favour beyond the threshold, and otherwise fills in full at the open with the spread against the taker |
| `ExecutionLaws.TermsAre` | src/quantfinlib/backtest/execution_models.py:178-185 | Anchors and worst cases: close and cost rate, open and spread, a wrapper's inner model's |
| `ExecutionLaws.SliceCapIsLargest` | src/quantfinlib/backtest/execution_models.py:200-203 | An iceberg passes on the most that request, tranche and participation allow |
| `ExecutionLaws.SlicedFills` | src/quantfinlib/backtest/execution_models.py:195-210 | And returns exactly the inner model's fills for that much |
| `ExecutionLaws.PlainTranche` | src/quantfinlib/backtest/execution_models.py:113-122 | A tranche without jitter is the display size or what is left |
| `ExecutionLaws.JitteredTranche` | src/quantfinlib/backtest/execution_models.py:113-122 | With jitter it is within the percentage of the display size, rounded to nearest, at least 1, never more than what is left |
| `ExecutionLaws.TrancheAfterFill` | src/quantfinlib/backtest/execution_models.py:124-136 | A fill comes off the tranche; only an exhausted one is replaced |
| `StreamingIndicators.Sma.Update` | src/quantfinlib/indicators/streaming_indicators.py:33-42 | The streaming value is the batch mean of the last period values at every index, missing during warm-up |
| `StreamingIndicators.Ema.Update` | src/quantfinlib/indicators/streaming_indicators.py:58-67 | The streaming value is the batch average at every index, for any input including missing values |
| `StreamingIndicators.Rsi.Update` | src/quantfinlib/indicators/streaming_indicators.py:86-105 | The streaming value is the batch Wilder RSI at every index |
| `StreamingIndicators.Macd.Update` | src/quantfinlib/indicators/streaming_indicators.py:124-134 | Line, signal and histogram are the batch ones at every index, for any three periods |
| `StreamingIndicators.Vwap.Update` | src/quantfinlib/indicators/streaming_indicators.py:153-157 | Total price-volume over total volume of everything seen, the price itself at zero volume |
| `StreamingIndicators.LinesGrow` | src/quantfinlib/indicators/streaming_indicators.py:126-131 | One more price extends the valid part of the line by one value and changes no earlier one |
| `Indicators.Ema` | src/quantfinlib/indicators/indicators.py:118-132 | The batch loop computes the seeded recurrence, missing before the seed |
| `Indicators.EmaPrefix` | src/quantfinlib/indicators/indicators.py:126-131 | An average only depends on what came before it |
| `Indicators.Macd` | src/quantfinlib/indicators/indicators.py:196-213 | The batch arrays are the per-index definitions; the warm-up never enters the signal's seed |
| `Indicators.Rsi` | src/quantfinlib/indicators/indicators.py:152-175 | The batch loop computes Wilder's recurrence |
| `Indicators.RsiDefined` | src/quantfinlib/indicators/indicators.py:601-604 | The index is between 0 and 100 and never divides by zero |
| `IndicatorLaws.RsiAtIsShare` | src/quantfinlib/indicators/indicators.py:601-604 | The index times averaged gains and losses is 100 times the averaged gains; 50 when nothing moved |
| `IndicatorLaws.AverageIsDecayed` | src/quantfinlib/indicators/indicators.py:152-175 | Wilder's averages in closed form: the mean of the first moves and the later ones, decayed by 1 - 1/period |
| `IndicatorLaws.MovesTelescope` | src/quantfinlib/indicators/indicators.py:158-162 | Gains less losses are what the price moved, and no change is both |
| `IndicatorLaws.SmaMoves` | src/quantfinlib/indicators/indicators.py:107-116 | The first mean is that of the first values; each later one moves by what enters less what leaves |
| `IndicatorLaws.EmaIsDecayed` | src/quantfinlib/indicators/indicators.py:118-132 | The exponential average in closed form: the first mean and the later values, decayed by 1 - 2/(period+1) |
| `IndicatorLaws.MacdFollows` | src/quantfinlib/indicators/indicators.py:196-213 | After a flat stretch, a jump moves the line by the difference of the two weights, the signal by its weight of that and the histogram by the rest |
| `IndicatorLaws.MultiplierPlaces` | src/quantfinlib/indicators/indicators.py:440-446 | A close at the high counts 1, at the low -1, linear between; a bar without range 0 |
| `IndicatorLaws.CmfIsShare` | src/quantfinlib/indicators/indicators.py:447-457 | The money flow times the window's volume is its signed volume; 0 where nothing traded |
| `Indicators.SlideWindow` | src/quantfinlib/indicators/indicators.py:447-452 | Adding the newest and dropping the oldest value slides the window by one |
| `Indicators.Cmf` | src/quantfinlib/indicators/indicators.py:434-455 | The sliding sums give the per-window definition at every index |
| `Drawdown.MaxDepthIsMaxDrawdown` | src/quantfinlib/backtest/_risk.py:55-61 | The running-peak maximum is the largest fall over all pairs of points |
| `Drawdown.MaxDrawdownIsUnique` | src/quantfinlib/backtest/_risk.py:55-61 | There is one largest fall, so the three computations agree |
| `Drawdown.MaxDrawdown` | src/quantfinlib/backtest/_risk.py:55-61 | The risk function is that maximum on positive curves, 0 on an empty one |
| `Drawdown.DrawdownCurve` | src/quantfinlib/alpha/alpha_report.py:165-186 | Each point is minus the fall from the running peak |
| `Drawdown.CurveBottoms` | src/quantfinlib/alpha/alpha_report.py:174-186 | The curve's lowest point is minus the maximum drawdown |
| `Drawdown.NextWorst` | src/quantfinlib/backtest/drawdown_analytics.py:101-117 | The episode scan's worst depth follows the running-peak maximum at every step |
| `Drawdown.Analyze` | src/quantfinlib/backtest/drawdown_analytics.py:78-128 | Refused below two points or on a non-positive one; otherwise maximum depth is the largest fall over all pairs, episodes run from a peak to its lowest point and first recovery in order, and depth, duration and time under water are theirs |
| `Drawdown.UnderWaterCounts` | src/quantfinlib/backtest/drawdown_analytics.py:109-110 | Time under water counts exactly the points below an earlier one |
| `Drawdown.LongestIs` | src/quantfinlib/backtest/drawdown_analytics.py:122-126 | The longest duration is the largest from an episode's peak to its recovery, or to the end |
| `Drawdown.DeepestIs` | src/quantfinlib/backtest/drawdown_analytics.py:122-126 | The maximum depth is the largest episode depth |
| `Drawdown.FallIsDistance` | src/quantfinlib/backtest/_risk.py:55-61 | A fall times the higher point is the distance between the two |
| `SpreadExecution.FillsAreSafe` | src/quantfinlib/execution/spread_execution_algo.py:74-111 | Any part of the emitted children keeps the imbalance between 0 and the cap, half-up rounding included, and no emitted fill is refused |
| `SpreadExecution.CapHolds` | src/quantfinlib/execution/spread_execution_algo.py:74-117 | The cap holds throughout every run |
| `SpreadExecution.NeverStalls` | src/quantfinlib/execution/spread_execution_algo.py:74-92 | Children are never negative, and a state emits nothing exactly when it is done |
| `SpreadExecution.ChildrenAreLargest` | src/quantfinlib/execution/spread_execution_algo.py:74-92 | The hedge child is the whole imbalance; the lead child is the most that parent, child limit and headroom allow, none at the cap |
| `SpreadExecution.HedgedIsNearest` | src/quantfinlib/execution/spread_execution_algo.py:113-118 | The hedge target is lead times ratio to the nearest unit, halves up |
| `SpreadExecution.RunsEnd` | src/quantfinlib/execution/spread_execution_algo.py:74-127 | Any run that fills something in every interval until it is done is done after at most as many intervals as there are units, and stays done |
| `SpreadExecution.FullFillsFinish` | src/quantfinlib/execution/spread_execution_algo.py:74-127 | Full fills complete both legs |
| `SpreadExecution.SpreadExecutionAlgo.Decide` | src/quantfinlib/execution/spread_execution_algo.py:74-92 | The emitted children are the specified ones |
| `SpreadExecution.SpreadExecutionAlgo.OnLeadFill` | src/quantfinlib/execution/spread_execution_algo.py:94-98 | Accepted exactly within the parent |
| `SpreadExecution.SpreadExecutionAlgo.OnHedgeFill` | src/quantfinlib/execution/spread_execution_algo.py:100-111 | Accepted exactly within the rounded hedge target |
| `PortfolioExecutor.BandHolds` | src/quantfinlib/execution/portfolio_executor.py:217-251 | The band never raises a child; a throttled leg ends within the band or at no priced demand, undershooting by less than the mids of the children it scaled |
| `PortfolioExecutor.CapacityHolds` | src/quantfinlib/execution/portfolio_executor.py:166-183 | With finite risk factors, after the capacity pass no child is raised and priced demand is within the interval budget |
| `PortfolioExecutor.CapacityShares` | src/quantfinlib/execution/portfolio_executor.py:166-183 | Over budget, each symbol's allocation is its share by factor-weighted notional: demand within it is untouched, demand beyond it cut to the last whole unit that fits |
| `PortfolioExecutor.CapacityExactly` | src/quantfinlib/execution/portfolio_executor.py:166-215 | With any risk factors: demand over the budget is brought within it if and only if all factors are finite, or the infinite ones belong to symbols with demand that together fit the budget |
| `PortfolioExecutor.FactorRange` | src/quantfinlib/execution/portfolio_executor.py:192-215 | A risk factor lies in the documented [1, 2] if and only if there is a live risk picture or the volatility is not above 1 |
| `PortfolioExecutor.FactorIs` | src/quantfinlib/execution/portfolio_executor.py:192-215 | 1 plus the contribution clamped to [0, 1], or 1 plus a positive volatility |
| `PortfolioExecutor.VolatilityEscapes` | src/quantfinlib/execution/portfolio_executor.py:166-215 | Volatility 2 gives factor 3; an infinite one gives an infinite factor, whose symbol keeps 200 of demand under a budget of 100 while the other loses all of its |
| `PortfolioExecutor.WeightsDominate` | src/quantfinlib/execution/portfolio_executor.py:192-215 | Risk factors of at least 1 make the budget bind whenever demand exceeds it |
| `PortfolioExecutor.IntervalIsBounded` | src/quantfinlib/execution/portfolio_executor.py:138-190 | Over the whole interval, second band pass included: no child raised, the band kept relative to the dues the last pass saw (the capped ones when over budget), and demand within the budget where it binds |
| `PortfolioExecutor.PortfolioExecutor.Decide` | src/quantfinlib/execution/portfolio_executor.py:138-190 | The in-place passes compute that interval; short buffers are refused with nothing changed |
| `PortfolioExecutor.PortfolioExecutor.ApplyLegBand` | src/quantfinlib/execution/portfolio_executor.py:217-240 | The band on the current dues, in place |
| `PortfolioExecutor.PortfolioExecutor.AllocateCapacity` | src/quantfinlib/execution/portfolio_executor.py:166-183 | The capacity cut, in place |
| `PortfolioExecutor.PortfolioExecutor.OnFill` | src/quantfinlib/execution/portfolio_executor.py:257-277 | A fill enters the notional ledger of its side only at a usable price |
| `BusinessCalendar.NextBusinessDay` | src/quantfinlib/fx/business_calendar.py:81-85 | The walk ends, on the first business day after the date |
| `BusinessCalendar.WeekDay` | src/quantfinlib/fx/business_calendar.py:46-47 | From any Monday, the first five days are business days unless they are holidays and the next two are not |
| `BusinessCalendar.PreviousBusinessDay` | src/quantfinlib/fx/business_calendar.py:87-91 | The walk ends, on the last business day before the date |
| `BusinessCalendar.AddBusinessDays` | src/quantfinlib/fx/business_calendar.py:63-70 | Exactly n business days lie in the walked interval, which ends on one |
| `BusinessCalendar.CountPins` | src/quantfinlib/fx/business_calendar.py:63-70 | No other business day is that many business days on: the end of the walk is determined |
| `BusinessCalendar.SubtractBusinessDays` | src/quantfinlib/fx/business_calendar.py:72-79 | The mirror image |
| `BusinessCalendar.ThereAndBack` | src/quantfinlib/fx/business_calendar.py:63-79 | Adding then subtracting a positive lag returns to the date exactly when it is a business day, and otherwise to the business day before it |
| `BusinessCalendar.AddThenSubtract` | src/quantfinlib/fx/business_calendar.py:63-79 | The two walks composed: the identity from a business day, the open day before it otherwise |
| `BusinessCalendar.Roll` | src/quantfinlib/fx/business_calendar.py:49-61 | Each convention lands where it promises; a modified roll goes back only when going forward changes the month |
| `BusinessCalendar.JointCalendar` | src/quantfinlib/fx/business_calendar.py:41-44 | A day is open in the joint calendar exactly when both centres are open |
| `CsvSplit.SplitAgreesWithTest` | src/quantfinlib/data/csv_bar_loader.py:129-170 | A line splits into more than one field exactly when the delimiter occurs outside quotes by the toggling test |
| `CsvSplit.RowRoundTrip` | src/quantfinlib/data/csv_bar_loader.py:129-159 | Cells written bare or quoted with doubled quotes split back to their texts |
| `CsvSplit.Split` | src/quantfinlib/data/csv_bar_loader.py:129-159 | The cursor loop computes the specified fields |
| `CsvSplit.ContainsUnquoted` | src/quantfinlib/data/csv_bar_loader.py:162-170 | True exactly when the character occurs outside toggled quotes |

## Left out

- Floating-point rounding: all arithmetic is exact. VPIN's equality test on a full bucket, the floors of the allocators and the hedge's tolerance are exact here.
- Constructor argument checks that raise are preconditions of the modelled constructors, and so is a positive period for the indicators.
- Negative list indices (which Python wraps) are excluded by preconditions on venue, symbol, LP and handle indices.
- L3Book.L3BookBuilder.Snapshot: the ticks are also returned as a ghost value, so that order and completeness can be stated; a negative level limit is left as the code treats it.
- L3Book.L3BookBuilder.OnAdd: the nine event counters are one record; the tracking table's rows are values that are replaced instead of dictionaries updated in place.
- Nbbo.Nbbo.OnVenueQuote: venue bitmasks are the sets of their bits, and the change listener is not called (its firing is the returned flag).
- DarkPool.DarkPoolSimulator.Submit: resting orders are values in the queue, so aliasing of a resting order is not captured.
- ExecutionModels.ExecuteKeepsContract: models are values that return their next state instead of objects behind an abstract base class; any other model is a function of how often it was asked. The class `IcebergOrder` covers the mutable order. Timestamps, symbols and venue tags of fills are left out.
- Backtester.ExecutionAwareBacktester.Execute: a strategy is the sequence of its signals (it sees no engine state); trade timestamps, the result wrapper and transaction-cost reports are left out; bar prices are positive, and cost rates are above -1 (at or below it sizing divides by zero or less).
- LeadLag.LeadLagEstimator.OnSample: the five moment arrays are one array of records.
- CorrelationMoments.CorrelationWithinOne: correlations are stated squared, without the root; best-lag selection and predictions are left out. The information-coefficient snapshots around the same moment update are left out.
- EwmaCovariance.EwmaCovariance.Covariance: volatility and correlation take roots and are left out, as is the minimum-variance hedge ratio.
- HedgeOptimizer.Hedge: convergence within the iteration limit is not claimed; not converging is an outcome.
- FixMessage.ParseMessage: Python's limit on the number of digits of an integer, and number rendering other than integers, are left out.
- FixDecoder.FixDecoder.Poll: messages are text with one character per byte.
- FixOrderEncoder.FixOrderEncoder.Encode: the calendar date of a day is a parameter.
- FixExecReport.FixExecReportView.Wrap: after an error the getters are unspecified, although the source keeps what was read before it.
- PortfolioExecutor.PortfolioExecutor.Decide: each child's own due quantity and the risk model's contributions are inputs; a two-sided band guarantee is not claimed, because rounding a high-priced child down can undershoot the other side.
- FxTierBook.FxTierBook.FullAmountPrice: the scan over all LPs for the best full-amount price, clearing a ladder and best bid and ask are left out.
- HftSor.HftSor.Route: the caller's quantity array is not one of the router's own.
- BusinessCalendar.Roll: dates are unbounded ordinals and months an arbitrary numbering, so the date range and month arithmetic are left out.
- Randomness: tranche jitter uses an arbitrary function of the draw number; schedule and size jitter overlays are left out.
- Persistence, file and clock input, transcendental pricing and statistics, report formatting, thin records and getters.
- Scorecard pending rings, currency-pair conventions, series alignment, the central risk book's netting, midranks, scenario and research modules: smaller than what is here.
