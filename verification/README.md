# Verified model of the tick collector and the trade executor

The repository collects market data into PostgreSQL through a crash-safe write-ahead log, and trades on it
with an executor made of a feed cursor, a socket write queue, two strategies and a risk manager. This project
models those parts in Dafny and proves what their design promises, over every input, every run and every
interleaving of the modelled steps. Where the code does not keep a promise, the model keeps the code's
behaviour, a lemma gives the input that breaks the promise, and another states exactly when it holds.

| module | source | what it is |
|---|---|---|
| `Prelude`, `Rows` | `src/db.hpp` | integer ranges, C++ division, row types |
| `Decimal`, `Csv`, `RowCodecs` | `src/collector.cpp` | number printing and reading, `split_csv`, the three line codecs |
| `WriteAheadLog`, `LogCodecs` | `src/wal.hpp` | the log as a character sequence with a cached and a stable part |
| `TickTable`, `BboTable` | `src/db.cpp` | the two upserts as effects on maps |
| `Durability`, `DurabilityLimits`, `Provenance`, `TickWriting` | `src/wal.hpp`, `src/collector.cpp` | the tick stream's log, database and crashes as one state machine |
| `Duplicates` | `src/wal.hpp`, `src/collector.cpp` | how often a trade can come to be stored |
| `BboDurability` | `src/wal.hpp`, `src/collector.cpp` | durability of the top-of-book stream |
| `CollectorModel` | `src/collector.cpp` | producers, bounded queue, writer, shutdown |
| `EndToEnd` | `src/collector.cpp`, `src/wal.hpp` | the collector's memory joined to the tick stream's log and table |
| `FeedCursor`, `QuoteMerge`, `WriteQueue` | `src/execution/executor_main.cpp` | the polling feed, its second stream, the write queue |
| `JsonScan`, `Calendar` | `src/execution/orb_config.hpp` | key scanner, daylight-saving rule, trading date |
| `HtfAggregator`, `GapList`, `Bracket` | `src/execution/mtf_scalper_strategy.hpp` | bar aggregation, gap lists, the ratcheting bracket |
| `Risk`, `Orb` | `src/execution/risk_manager.hpp`, `src/execution/orb_strategy.hpp` | risk limits and restart, the breakout strategy |

Code that changes state is a class whose methods are proved equal to one step of a state machine on values;
the lemmas over whole runs are about that state machine. What the operating system, the database and the peer
may do (short writes, failed syncs, lost cached bytes, failed statements, growing tables) is chosen freely: by
a field, a parameter or a nondeterministic assignment in a method, by an event in a run. What the steps compute
is also stated in the source's own terms, with its constants and settings: which fields are stored, on which day
an instant falls, when a batch is handed over, where a stop stands.

Prices and money that pass through text are integers in units of 0.000001; elsewhere they are reals. Time
stamps are integers. A not-a-number value is an absent option.

Places where the code and its comments disagree; the model follows the code:

- The log's reader says that a torn tail is skipped (`src/wal.hpp:151`). It is skipped but never removed, so
  the next append is glued to it (`WriteAheadLog.AppendExactIff`, `DurabilityLimits.UntrimmedTailLosesTick`).
- A restart that cannot open its file for reading goes on with nothing pending (`src/wal.hpp:138-139`), and the
  next commit truncates rows that nobody read (`Durability.UnreadRestartKeepsIff`,
  `DurabilityLimits.UnreadRunKeepsIff`, `BboDurability.UnreadRestartKeepsIff`).
- Ranks make a redelivered batch harmless (`src/db.cpp:530-534`), but a retried append whose first try had
  reached the file is in one batch twice after a crash, and is stored twice (`Duplicates.RetriedTickDoublesIff`).
- The depth line is printed with eleven fields and read only with twelve (`RowCodecs.DepthLineRejected`,
  `LogCodecs.DepthLogRecoversNothing`).
- A flush sends all pending top-of-book rows in one statement, which fails for good once two of them share a
  key (`BboTable.RepeatedKeyNeverDrains`); requeueing after a failed append, meant to lose nothing
  (`src/collector.cpp:412-413`), brings that about (`BboDurability.RetriedAppendSticks`).
- "Every quote up to the print" (`src/execution/executor_main.cpp:3115-3117`) holds only in the direction that
  nothing later is applied (`QuoteMerge.BookIsPrefix`, `QuoteMerge.BookCurrentIff`, `QuoteMerge.StaleBook`).
- Detaching "fails queued writes" (`src/execution/executor_main.cpp:320-325`), but with a write in flight the
  completion then takes the front of an empty queue, or an item submitted after a reconnect
  (`WriteQueue.DetachInFlightMismatch`).
- The day's result is seeded so that a restart cannot spend the limit again
  (`src/execution/executor_main.cpp:746-748`), and is then zeroed at line 2296 (`Risk.DayIsLostIff`).
- A roll-over of the structure timeframe is detected by the length of a list capped at eight
  (`src/execution/mtf_scalper_strategy.hpp:680-682`) and is not seen any more once the list is full
  (`HtfAggregator.SizeDetectsIff`).
- "Trailing retires TP" (`src/execution/mtf_scalper_strategy.hpp:1429`): a fill notification brings the target
  back, and without the cap that one mode asks for (`Bracket.SettledOverLeg`, `Bracket.TrailingTargetIff`).
- The string extractor looks for the first colon behind the key's opening quote
  (`src/execution/orb_config.hpp:549-568`), so a key with a colon in it gives the default or the text between
  key and value (`JsonScan.PrintedStringRead`, `JsonScan.JsonStrInvertsIff`).
- A missing previous price "means no prior tick this session" (`src/execution/orb_strategy.hpp:306-307`), but a
  reset keeps the last price; no entry ever depends on it (`Orb.EntriesCrossToday`).

## Model

| member | source | states |
|---|---|---|
| `Decimal.IntRoundTrip` | src/collector.cpp:48-70 | reading back a printed integer gives it for every value in the target type's range and fails outside it |
| `Decimal.PriceRoundTrip` | src/collector.cpp:19-24 | reading back any price printed with six decimals gives that price, sign and zero included |
| `Decimal.PriceTextIs` | src/collector.cpp:19-24 | the text of a price is a sign if negative, a whole part without leading zeros, a point and six digits, denoting the price in millionths |
| `Decimal.TrailingZero` | src/collector.cpp:48-70 | reading a price is indifferent to a zero behind its fraction, within six digits, and to a bare point |
| `Csv.SplitCsv` | src/collector.cpp:34-41 | the splitting loop yields the fields around every comma, with an empty last field after a trailing comma and no field for an empty line |
| `Csv.SplitConcat` | src/collector.cpp:34-41 | splitting turns two texts joined by a comma into the two field lists joined |
| `Csv.SplitJoin` | src/collector.cpp:34-41 | splitting undoes joining for every list of comma-free fields, empty ones anywhere included, except exactly the list of one empty field |
| `Csv.SplitPrefix` | src/collector.cpp:34-41 | a line cut short never has more fields than the whole line |
| `RowCodecs.TickRoundTrip` | src/collector.cpp:48-70 | a tick survives print and parse if and only if both texts are non-empty and comma-free |
| `RowCodecs.TornTick` | src/collector.cpp:58-70 | a cut tick line parses if and only if the cut lies inside the exchange, and then gives the tick with a shortened exchange |
| `RowCodecs.BboRoundTrip` | src/collector.cpp:72-100 | a top-of-book row survives up to the size and orders of an absent side becoming zero, if and only if its texts are non-empty and comma-free |
| `RowCodecs.BboLineFields` | src/collector.cpp:72-83 | the nine fields of a printed line in order, with the three fields of an absent side empty |
| `RowCodecs.DepthLineRejected` | src/collector.cpp:102-134 | the depth parser rejects every line the depth printer writes for comma-free texts |
| `RowCodecs.DepthNeverRoundTrips` | src/collector.cpp:102-134 | no depth row at all is read back from its own line |
| `RowCodecs.DepthLineFields` | src/collector.cpp:102-134 | the eleven fields of a printed depth line in order |
| `WriteAheadLog.LogFile.Write` | src/wal.hpp:86-95 | a POSIX append writes a prefix of the data, possibly short, or fails, which it never does where the file says so |
| `WriteAheadLog.Wal.constructor` | src/wal.hpp:53-65 | opening leaves pending exactly the rows that the file's lines parse to, and nothing for an unreadable file |
| `WriteAheadLog.Wal.ReadRows` | src/wal.hpp:133-155 | the reading loop over positions yields the replay of the whole content: per line, ends stripped, blank and malformed lines skipped |
| `WriteAheadLog.Wal.WriteBatch` | src/wal.hpp:75-102 | success appends the whole block, makes all of it stable and adds the rows to pending, and is certain when writing and syncing work; failure, certain when the sync fails, adds nothing to pending but can leave any prefix of the block in the file |
| `WriteAheadLog.Wal.Commit` | src/wal.hpp:107-114 | it succeeds if and only if the truncation does; success empties file, pending and size, failure leaves all of them; when the unchecked last sync fails the old bytes stay on stable storage |
| `WriteAheadLog.ReplayBlock` | src/wal.hpp:79-84 | replaying a block written whole gives what its rows' lines parse to, in order |
| `WriteAheadLog.ReplayAppend` | src/wal.hpp:143-152 | replay after an append to any file: rows before the torn tail, then the tail glued to the first line, then the rest of the batch |
| `WriteAheadLog.AppendExactIff` | src/wal.hpp:143-152 | a batch is recovered exactly behind the earlier rows if and only if the file ends at a line break, or its torn tail reads as nothing alone and as the first row when glued |
| `WriteAheadLog.ReplayHeadGrows` | src/wal.hpp:143-152 | rows before the last line break are a prefix of what is read from any extension of the file |
| `WriteAheadLog.LineEndsIgnored` | src/wal.hpp:143-152 | carriage returns in front of line breaks and blank lines make no difference to what is read |
| `LogCodecs.TickFaithfulIff` | src/collector.cpp:48-70 | a tick is logged faithfully if and only if its texts are non-empty and free of commas and line ends |
| `LogCodecs.BboLogReplay` | src/collector.cpp:72-100 | replaying a top-of-book log gives the batch with absent sides zeroed |
| `LogCodecs.BboLogTransparent` | src/collector.cpp:182-182 | storing the replayed top-of-book log has the same outcome as storing the batch, failure included |
| `LogCodecs.DepthLogRecoversNothing` | src/collector.cpp:183-183 | however many depth rows were logged, replay recovers none |
| `TickTable.TickDb.WriteBatch` | src/db.cpp:519-594 | ranking rows per key within the call and inserting with do-nothing on conflict; the returned count is the exact growth of the table |
| `TickTable.RowsAreStored` | src/db.cpp:541-578 | after a call every row has a stored key with its own symbol, exchange, time stamp, price and size, and with its side where that key is new |
| `TickTable.NewKeysAreRows` | src/db.cpp:541-578 | every key new in the table has the five fields of some row of the call |
| `TickTable.StoredWithFields` | src/db.cpp:530-578 | the stored rows with five given field values number as many as the call that held most rows with those values |
| `TickTable.WrittenKeys` | src/db.cpp:535-578 | after a call a key with rank n is stored if and only if it was before or the call holds the key more than n times |
| `TickTable.WrittenValue` | src/db.cpp:535-578 | the stored side is the old one, or that of the row which has that rank in the call |
| `TickTable.RetryWithMore` | src/db.cpp:530-534 | writing P and then P followed by Q leaves the table that writing P followed by Q alone leaves |
| `TickTable.StoredIsMaximum` | src/db.cpp:530-578 | after any calls the number of stored rows of a trade is the largest number of times one single call held it |
| `TickTable.AllStoredIff` | src/db.cpp:530-578 | all deliveries of a trade are stored if and only if at most one call holds it; equal trades in different calls collapse |
| `BboTable.BboDb.WriteBbo` | src/db.cpp:615-713 | a statement merges every row, or fails and changes nothing; it succeeds if and only if there is nothing to write, or the server can execute it and no key repeats |
| `BboTable.RowsAreStored` | src/db.cpp:629-696 | after a merge every row is stored under its own symbol, exchange and time stamp |
| `BboTable.NewKeysAreRows` | src/db.cpp:629-696 | every key new in the table has those three fields of some row |
| `BboTable.StoredSides` | src/db.cpp:669-696 | over any calls the bid stored for a symbol, an exchange and a time stamp is price, size and orders of the latest accepted row with those three that carried a bid, null if none did; likewise the ask |
| `BboTable.SidesAreWhole` | src/db.cpp:669-696 | over any calls each stored side is the whole price, size and orders triple of the latest accepted row that carried that side |
| `BboTable.RetryWithMore` | src/collector.cpp:458-490 | a flush stored but not committed, followed by a larger flush, leaves what the larger flush alone leaves |
| `BboTable.ReplayedMerge` | src/db.cpp:629-656 | zeroing absent sides, as the log does, changes neither the outcome nor the table |
| `BboTable.RepeatedKeyNeverDrains` | src/collector.cpp:458-490 | once two pending rows share a key, every later flush of the growing pending set fails, for every table |
| `BboDurability.BboDurable` | src/collector.cpp:458-490 | after any run whose appends start on an aligned file and whose restarts read it, every side of every acknowledged row is stored or waiting, whatever statements failed, and one successful statement over what waits stores all of it |
| `BboDurability.BbosDurable` | src/collector.cpp:458-490 | the same for the real top-of-book codec, with the condition on rows reduced to their texts |
| `BboDurability.UnreadRestartKeepsIff` | src/wal.hpp:133-139 | after an unread restart and one more committed batch, what an acknowledged row says is kept if and only if the table or the new batch says it |
| `BboDurability.RetriedAppendSticks` | src/collector.cpp:458-490 | a row whose failed append had reached the file and was retried is found twice after a crash before the commit, and no later statement ever succeeds, on an aligned file |
| `Durability.StepKeeps` | src/wal.hpp:75-155 | append, failed append, store, failed store, commit, failed commit, crash and restart all keep the durability invariant when an append starts on an aligned file and a restart reads its file, or has nothing to read |
| `Durability.Durable` | src/wal.hpp:75-155 | after any run of such events every trade of every acknowledged batch is stored, pending, or pending after a restart, as often as the batch holds it |
| `Durability.UnreadRestartKeepsIff` | src/wal.hpp:133-139 | after a restart that cannot open its file for reading, an append, a store and a commit, an acknowledged trade is kept if and only if the table already held it or the new batch does, and the file is empty |
| `DurabilityLimits.UnreadRunKeepsIff` | src/wal.hpp:133-139 | the run that shows it: the first of two acknowledged ticks survives if and only if both are the same trade |
| `DurabilityLimits.TornRunKeepsIff` | src/wal.hpp:143-152 | after a torn append, a restart and an acknowledged append, the acknowledged trade survives a second crash if and only if torn piece and line together read as the same trade |
| `DurabilityLimits.UntrimmedTailLosesTick` | src/wal.hpp:143-152 | for any two ticks with positive time stamps, a first append torn anywhere in front of the exchange makes the acknowledged second tick vanish, if its exchange is no numeral or the tear is inside the time stamp |
| `Provenance.TornBlockGenuine` | src/wal.hpp:86-95 | from any prefix of a block only rows of the batch are read, up to an exchange cut short |
| `Provenance.TicksTearCleanly` | src/collector.cpp:58-70 | every faithful tick line, cut anywhere, reads as nothing or as its own tick with a shortened exchange |
| `Provenance.NothingInvented` | src/collector.cpp:415-456 | in a run whose appends start on an aligned file every stored or pending trade was submitted, up to an exchange cut short |
| `Duplicates.StoredAtMostSubmitted` | src/collector.cpp:415-456 | in such a run a trade is stored no more often than the rows given to appends, failed ones included, can read as it |
| `Duplicates.RetriedTickDoublesIff` | src/collector.cpp:416-425 | a tick acknowledged once whose append had failed and was retried is stored twice after a crash and a restart if and only if the failed append had reached the file as a whole |
| `TickWriting.TickWriter.WriteTickBatch` | src/collector.cpp:415-456 | one batch is a run of the durability machine: logged, it is acknowledged, written with everything pending, and committed if the database answers and the log can be truncated; a batch that could not be logged comes back for requeueing and changes neither table nor pending |
| `TickWriting.TickWriter.Recover` | src/collector.cpp:166-183 | start-up recovery is such a run too: all recovered rows are written, and committed under the same condition or kept |
| `CollectorModel.Conservation` | src/collector.cpp:204-456 | in every interleaving of producers, writer and shutdown every additive measure of a stream's accepted rows is the sum over committed, logged, in the writer's hand, queued, swapped out, in the producer's hand, buffered and dropped |
| `CollectorModel.RowsConserved` | src/collector.cpp:204-456 | each row is in those places, together, exactly as often as it was accepted |
| `CollectorModel.QueueBounds` | src/collector.cpp:315-344 | the queue never exceeds its cap by more than the shutdown jobs, of which there are at most three, and is empty once the writer stopped |
| `CollectorModel.BuffersStaySmall` | src/collector.cpp:204-313 | in every run a stream none of whose log appends failed buffers fewer than 5 ticks, 5 top-of-book rows and 10 depth rows |
| `CollectorModel.HandedOverIff` | src/collector.cpp:219-231 | an accepted row leaves its buffer empty and the old buffer with the row in hand if and only if that makes 5, 5 or 10 rows or the time has elapsed; otherwise it is only buffered, and no other stream changes |
| `CollectorModel.QueueMoves` | src/collector.cpp:315-323 | a step leaves the queue, takes its front or adds one job at its end; a batch is dropped if and only if 8192 jobs wait |
| `CollectorModel.RequeueKeepsOrder` | src/collector.cpp:412-425 | rows whose log append failed go back in front of their buffer, so that their stream stays in order when nothing of it is on the way |
| `CollectorModel.StreamOrder` | src/collector.cpp:348-386 | rows of a stream are committed in the order in which they were accepted as long as none of that stream was dropped and none of its log appends failed, whatever happens to the others |
| `CollectorModel.AfterShutdown` | src/collector.cpp:325-398 | after the writer stopped accepted rows are committed, logged, dropped, or back in their buffer after a failed append of their stream, where they stay |
| `CollectorModel.Collector.EnqueueJob` | src/collector.cpp:315-323 | a capped enqueue is refused exactly when 8192 jobs wait and otherwise appends |
| `CollectorModel.Collector.OnRow` | src/collector.cpp:204-239 | one row is buffered, the buffer handed over and emptied exactly at 5, 5 or 10 rows or when it is old, and a dropped batch counted when the queue refuses it |
| `CollectorModel.Collector.EnqueueRemaining` | src/collector.cpp:325-344 | shutdown swaps out the buffers and pushes what they held past the cap |
| `CollectorModel.Collector.WriterTurn` | src/collector.cpp:348-386 | one turn takes the oldest job and logs and stores it, or returns it to the front of its buffer |
| `EndToEnd.AcceptedToStored` | src/collector.cpp:204-456 | through any number of crashes and restarts every tick ever accepted is acknowledged, travelling in memory, dropped at the full queue, or was travelling in a process that died, in every additive measure; and every acknowledged one is stored, pending or recovered by a restart |
| `EndToEnd.TradesAccounted` | src/collector.cpp:204-456 | the same as a count of each trade |
| `FeedCursor.PgFeed.PollOnce` | src/execution/executor_main.cpp:3156-3205 | one poll reads a page behind the watermark, drops the last microsecond of a full page, consumes the rest and moves the watermark |
| `FeedCursor.PageIs` | src/execution/executor_main.cpp:3156-3175 | a page is the first 5000 rows later than the watermark, or all of them |
| `FeedCursor.PollUses` | src/execution/executor_main.cpp:3156-3205 | a poll consumes its page whole and moves the watermark to its last row, unless the page is full and holds two time stamps; then it stops exactly before the rows of the last one |
| `FeedCursor.PollExactIff` | src/execution/executor_main.cpp:3156-3205 | a non-empty poll advances the watermark and consumes exactly the rows up to it if and only if no microsecond at the page start overfills the page |
| `FeedCursor.FeedIsScan` | src/execution/executor_main.cpp:3156-3205 | for every splitting of history into polls with later-only arrivals and groups that fit a page, the rows consumed are the ordered scan from the start to the watermark, each once |
| `FeedCursor.ShortPollDrains` | src/execution/executor_main.cpp:3156-3205 | a poll that does not fill its page has consumed everything visible |
| `QuoteMerge.QuoteFeed.FeedQuotesUntil` | src/execution/executor_main.cpp:3121-3150 | refill when the buffer is empty, keep valid quotes, apply those not later than the print |
| `QuoteMerge.BookIsPrefix` | src/execution/executor_main.cpp:3121-3150 | across every refill pattern the quotes applied are a prefix of the valid quotes in time order, strictly increasing and none later than the print |
| `QuoteMerge.BookCurrentIff` | src/execution/executor_main.cpp:3115-3125 | every visible valid quote up to the print is applied if and only if, before the feed, none was due behind the watermark with quotes buffered or no connection, or behind the page that an empty buffer reads |
| `QuoteMerge.ShortPageIsCurrent` | src/execution/executor_main.cpp:3124-3149 | an empty buffer and a page that is not full always leave the book current |
| `QuoteMerge.StaleBook` | src/execution/executor_main.cpp:3124-3124 | a visible, due quote is left out when the print empties the buffer without a refill |
| `QuoteMerge.RefillExactIff` | src/execution/executor_main.cpp:3124-3140 | with equal time stamps a refill buffers every valid quote up to its new watermark if and only if the page ends no group in front of a valid quote |
| `QuoteMerge.SkippedForGood` | src/execution/executor_main.cpp:3127-3131 | a quote skipped in that way is in no later page |
| `WriteQueue.OneWriteAtTheFront` | src/execution/executor_main.cpp:316-411 | in every run that never detaches with a write in flight, the writes started are the finished ones and at most one more, which is the queue's front; no completion meets another item, and not busy means empty |
| `WriteQueue.NoOverlap` | src/execution/executor_main.cpp:312-315 | an event starts a write only when none is in flight and finishes only the one in flight, and the record of starts only grows |
| `WriteQueue.StartedInOrder` | src/execution/executor_main.cpp:373-399 | writes start in the order of submission and each at most once, those failed unwritten left out |
| `WriteQueue.SmoothPrefix` | src/execution/executor_main.cpp:373-399 | without a failure or a detach the finished writes are a prefix of the started ones and those of the accepted ones |
| `WriteQueue.CalledInOrderOnce` | src/execution/executor_main.cpp:382-407 | in every run, nested submissions and failures included, queued handlers are called in order of submission and once each; all others are answered at once |
| `WriteQueue.NothingLeftAtRest` | src/execution/executor_main.cpp:382-407 | with nothing in flight and no handler running every submitted handler has been called |
| `WriteQueue.ErrorFailsEverything` | src/execution/executor_main.cpp:391-396 | in every such run, after a write that fails no write is started until no handler runs any more, whatever handlers submit, attach or detach meanwhile; then the queue is empty and idle and every accepted handler was called |
| `WriteQueue.SuccessStartsNext` | src/execution/executor_main.cpp:397-397 | after a write that succeeds and the return of its handler the next queued one is started if there is one and the stream attached, and the queue is idle otherwise |
| `WriteQueue.SubmitStartsIffIdle` | src/execution/executor_main.cpp:373-380 | a submission to an attached queue joins its end and is started if and only if the queue was idle |
| `WriteQueue.DetachInFlightMismatch` | src/execution/executor_main.cpp:322-325 | after a detach with a write in flight, in every continuation with distinct items, handlers running and reconnects included, the completion meets an empty queue or another item if and only if it comes |
| `WriteQueue.SafeIffCareful` | src/execution/executor_main.cpp:322-325 | no completion can meet a wrong item in any continuation without a further detach if and only if the run never detached with a write in flight |
| `WriteQueue.WsWriteQueue.SubmitWrite` | src/execution/executor_main.cpp:373-380 | a submission is queued and started when idle, or its handler is called at once when detached |
| `WriteQueue.WsWriteQueue.OnWritten` | src/execution/executor_main.cpp:387-390 | a completion pops the front, whatever it is, and calls its handler before anything else |
| `WriteQueue.WsWriteQueue.AfterCompletion` | src/execution/executor_main.cpp:391-397 | after the handler returned: the next write, or on an error the failure of all queued ones |
| `WriteQueue.WsWriteQueue.DetachStream` | src/execution/executor_main.cpp:322-325 | detaching calls the handler of every queued item |
| `JsonScan.FindKey` | src/execution/orb_config.hpp:488-513 | the scanning loop over depth, string state and escapes computes the key finder |
| `JsonScan.FinderCorrect` | src/execution/orb_config.hpp:488-513 | for every well-formed object text, nested and with escapes and white space anywhere, and every escape-free key, the position found is that of the first top-level member spelled like the key, none if there is none |
| `JsonScan.ArrayHasNoKey` | src/execution/orb_config.hpp:488-513 | in a document that is an array no key is found |
| `JsonScan.GetStr` | src/execution/orb_config.hpp:549-568 | the extracting loop computes the string behind the key's colon, unescaped, or the default |
| `JsonScan.JsonStrInvertsPrinter` | src/execution/orb_config.hpp:549-568 | for colon-free keys the extractor returns any string that was printed with quote and backslash escaped, and for any key the default when it is absent |
| `JsonScan.PrintedStringRead` | src/execution/orb_config.hpp:549-568 | what the extractor yields for a printed string under every escape-free key: the string, the default when other text follows a colon inside the key, or the text between key and value when only white space does |
| `JsonScan.JsonStrInvertsIff` | src/execution/orb_config.hpp:549-568 | the printed string is returned for every default if and only if the key has no colon, or ends in one up to white space and the string equals the text between key and value |
| `Calendar.FormulaIsWeekdayIff` | src/execution/orb_config.hpp:37-42 | for every year and month the weekday formula is the weekday of the day count if and only if the year it works with is not negative, or is a leap year whose truncated sum is not negative or a multiple of seven |
| `Calendar.CivilDates` | src/execution/orb_config.hpp:65-75 | Unix time 0 to 86399 is 1970-01-01, and from the year 1 on the date at any time is as many days from that date as 86400 goes into the time |
| `Calendar.DateOfDay` | src/execution/orb_config.hpp:65-75 | every valid date of the years from 1 on is the date of its own day count |
| `Calendar.MonthLengths` | src/execution/orb_config.hpp:65-75 | the day counts of consecutive months differ by the lengths of the Gregorian months, leap years included |
| `Calendar.OffsetIsDaylightRule` | src/execution/orb_config.hpp:28-58 | with Unix times counted from 1970-01-01, the offset is four hours exactly from 07:00 UTC on whatever day is the second Sunday of March to 06:00 UTC on whatever day is the first Sunday of November (15 U.S.C. 260a), five otherwise, and there is one of each |
| `Calendar.TradingDayInterval` | src/execution/orb_config.hpp:65-75 | each trading day is the contiguous interval between two roll-overs, at 22:00 UTC from the second Sunday of March on, at 23:00 UTC from the first Sunday of November on, of days counted from 1970-01-01 |
| `Calendar.TradingDayByEasternClock` | src/execution/orb_config.hpp:65-75 | the trading day is the civil day on the Eastern clock, or the next one from 18:00 on |
| `Calendar.TradingDayMonotone` | src/execution/orb_config.hpp:65-75 | the trading date never goes back as time goes on |
| `Calendar.TradingDayLength` | src/execution/orb_config.hpp:65-75 | a trading day has 23 hours exactly on the second Sunday of March, 25 exactly on the first Sunday of November, 24 otherwise |
| `Calendar.DateNamesDay` | src/execution/orb_config.hpp:72-74 | distinct days have distinct dates |
| `Calendar.WeekKeyIsWeek` | src/execution/mtf_scalper_strategy.hpp:548-553 | for days counted from 1970-01-01, two days have one key if and only if they lie in one Monday-to-Sunday week, before 1970 too, and keys are monotone |
| `HtfAggregator.HtfAgg.OnBar` | src/execution/mtf_scalper_strategy.hpp:555-589 | one bar is one step of the aggregation: roll-over, indicators, forming bar |
| `HtfAggregator.CandleCorrect` | src/execution/mtf_scalper_strategy.hpp:583-588 | an aggregated bar has the first open, highest high, lowest low, last close and total volume of its bars |
| `HtfAggregator.FeedIsFold` | src/execution/mtf_scalper_strategy.hpp:555-589 | after any bars the forming bar aggregates the last bucket, and list, averages, slope and range are the fold over completed buckets only |
| `HtfAggregator.GroupsCutAtBuckets` | src/execution/mtf_scalper_strategy.hpp:556-558 | the buckets are the bar sequence cut exactly where the bucket number changes |
| `HtfAggregator.OneGroupPerBucket` | src/execution/mtf_scalper_strategy.hpp:556-558 | with nondecreasing minutes bucket numbers strictly increase, so each bucket is completed once |
| `HtfAggregator.DoneAreCandles` | src/execution/mtf_scalper_strategy.hpp:560-561 | the kept bars are the last eight completed buckets, or all, each aggregating its own bars |
| `HtfAggregator.IndicatorsFollow` | src/execution/mtf_scalper_strategy.hpp:562-576 | a completed bucket moves each exponential average of length n to (2 close + (n - 1) old) / (n + 1), the range of length n to (true range + (n - 1) old) / n with the true range against the close before, each seeded with its first value; slope and previous average are those of the fast one |
| `HtfAggregator.AveragesStayWithin` | src/execution/mtf_scalper_strategy.hpp:52-61 | over any bars between two prices both averages stay between them and the range between zero and their distance, for positive lengths |
| `HtfAggregator.EmaBetweenIff` | src/execution/mtf_scalper_strategy.hpp:52-56 | a new average lies between the old one and a different value if and only if its length is positive |
| `HtfAggregator.NoLookAhead` | src/execution/mtf_scalper_strategy.hpp:555-589 | histories that differ only inside the forming bucket give identical outputs |
| `HtfAggregator.SizeDetectsIff` | src/execution/mtf_scalper_strategy.hpp:680-682 | the detection by list length fires if and only if a bucket rolled over while fewer than eight were completed |
| `GapList.GapEngine.OnBar` | src/execution/mtf_scalper_strategy.hpp:938-969 | one bar forms a gap from the bar and the one two before it, or from structure bars, prunes the list and caps it; the retest level is the oldest retested gap's |
| `GapList.GapEngine.Maintain` | src/execution/mtf_scalper_strategy.hpp:1271-1289 | the backward loop with erasure equals filtering and marking in order |
| `GapList.GapHistory` | src/execution/mtf_scalper_strategy.hpp:938-969 | after every bar a side holds at most the cap, births strictly increase, each gap is the zone of its birth bar, is young enough, unfilled ever since, used if and only if a later bar touched it, and no gap ever raised two retests |
| `GapList.FormsIff` | src/execution/mtf_scalper_strategy.hpp:941-963 | after any bars, a bar forms a zone if and only if it and the bar two before it leave that zone open, at least the given share of the average range wide; or in structure mode the last and third-last structure bars at a roll-over do |
| `GapList.GapOrigin` | src/execution/mtf_scalper_strategy.hpp:938-969 | every gap kept after any bars was left open in that way at its birth, and is used if and only if a later bar came back into it without passing through and closed on its half |
| `GapList.PriceNeverCrossed` | src/execution/mtf_scalper_strategy.hpp:1271-1289 | with mid-invalidation off every low since a bull gap's birth is above its bottom, every high since a bear gap's birth below its top; with it on every close stays on the supported side of the middle |
| `GapList.StaysIff` | src/execution/mtf_scalper_strategy.hpp:1271-1289 | a gap stays, marked if this bar retested it, if and only if the bar neither closes beyond its middle nor, in the other mode, trades to its far edge, it is not too old, and fewer than the cap of newer ones stay |
| `GapList.LevelIsOldest` | src/execution/mtf_scalper_strategy.hpp:1283-1285 | the retest flag is up if and only if a gap raised, and the level is the oldest such gap's middle |
| `Bracket.Position.OpenPosition` | src/execution/mtf_scalper_strategy.hpp:1331-1363 | a new leg has stop, target and locked level target from the nearest admitted level found at the fill |
| `Bracket.Position.NotifyEntryFilled` | src/execution/mtf_scalper_strategy.hpp:208-215 | a fill of the same side moves entry, stop and target, another side's changes nothing |
| `Bracket.Position.UpdateExits` | src/execution/mtf_scalper_strategy.hpp:1409-1464 | a bar latches break-even and trailing, ratchets the stop and sets or retires the target |
| `Bracket.BarExactly` | src/execution/mtf_scalper_strategy.hpp:1409-1427 | after an evaluated bar each latch is set if and only if it was or the close passed its trigger, the target distance or the risk times its setting beyond entry, and the stop is the tightest of the old stop, the base stop, the entry if break-even is latched, and the close less the trail distance if trailing is |
| `Bracket.LatchedIff` | src/execution/mtf_scalper_strategy.hpp:1409-1425 | over any run trailing, and likewise break-even, is latched if and only if it was or some evaluated bar closed beyond its trigger, seen from the last fill |
| `Bracket.TrailFollows` | src/execution/mtf_scalper_strategy.hpp:1409-1427 | in any run whose fills keep the stop, once trailing is latched the stop is for good at or beyond the close less the trail distance of every bar evaluated since, and at or beyond entry once break-even is |
| `Bracket.TrailLostIff` | src/execution/mtf_scalper_strategy.hpp:1386-1392 | a fill behind a bar takes the trailing stop back if and only if that stop is not positive and the recomputed one lies behind it; `TrailLost` is such a leg |
| `Bracket.OpensExactly` | src/execution/mtf_scalper_strategy.hpp:1331-1363 | opening sets the stop at the risk, locks the level less its buffer if and only if it is far enough, and aims at it, at the multiple of the risk, or at the nearer of the two |
| `Bracket.FillsExactly` | src/execution/mtf_scalper_strategy.hpp:1382-1395 | a fill moves the entry, tightens a positive stop or sets the base one, and aims at the locked level or the multiple of the risk |
| `Bracket.Nearest` | src/execution/mtf_scalper_strategy.hpp:1473-1516 | the level found is the first of the nearest admitted levels strictly ahead of the price, none if and only if there is none |
| `Bracket.AdmittedIff` | src/execution/mtf_scalper_strategy.hpp:1473-1516 | which levels are admitted, each group by its own setting, a gap by its middle or its far edge |
| `Bracket.Ratchet` | src/execution/mtf_scalper_strategy.hpp:1331-1464 | over any interleaving of bars and fills in which every fill finds the stop positive, or recomputes one no looser, the stop only tightens and the break-even, trailing and exit flags never unlatch |
| `Bracket.RatchetIff` | src/execution/mtf_scalper_strategy.hpp:1386-1392 | that condition on the fills is exact: the stop tightens at every event of the leg if and only if it holds |
| `Bracket.StopsNeverRetreat` | src/execution/mtf_scalper_strategy.hpp:1331-1464 | the same between any two moments of the leg |
| `Bracket.LongIsTight` | src/execution/mtf_scalper_strategy.hpp:1386-1392 | every run of a long leg whose first stop is positive meets the condition |
| `Bracket.ShortIsTight` | src/execution/mtf_scalper_strategy.hpp:1386-1392 | so does every run of a short leg with positive prices and non-negative distances |
| `Bracket.LockedIn` | src/execution/mtf_scalper_strategy.hpp:1414-1429 | once a bar ran with break-even latched the stop stays at or beyond entry for the rest of the leg, absent another fill |
| `Bracket.SettledOverLeg` | src/execution/mtf_scalper_strategy.hpp:1331-1464 | after any run of a leg its target is the one of the last effective event: after a bar capped, retired while trailing is on, and the stop at or beyond entry once break-even latched; after a fill the uncapped one whatever is latched |
| `Bracket.TrailingTargetIff` | src/execution/mtf_scalper_strategy.hpp:1393-1429 | from an opened leg, after any run, there is a target beside a latched trailing stop if and only if the last effective event is a fill |
| `Bracket.LevelTargetProfitsIff` | src/execution/mtf_scalper_strategy.hpp:1345-1355 | every level ahead gives a target on the profit side if and only if the minimum distance exceeds the buffer or the buffer is not positive |
| `Bracket.TargetProfitsIff` | src/execution/mtf_scalper_strategy.hpp:1331-1464 | over any run of a leg, fills included, a target lies on the profit side if and only if the last fill has not run past the locked level; and unless a fill came last it never lies past the cap |
| `Bracket.OpenedTargetStaysAhead` | src/execution/mtf_scalper_strategy.hpp:1331-1464 | a leg opened from the levels found keeps its target on the profit side or has it retired after every run whose fills stay before the locked level, if the minimum distance exceeds the buffer |
| `Risk.RiskManager.OnTradePnl` | src/execution/risk_manager.hpp:89-133 | a trade moves equity, day, total and peak and latches the first rule broken, a non-finite one only the halt |
| `Risk.RiskManager.Allowed` | src/execution/risk_manager.hpp:142-162 | trading is allowed if and only if not halted, the day's limit is unbroken and the drawdown with unrealized result is under the cap; a halt reports its own reason, the day's limit before the drawdown |
| `Risk.RiskManager.ResetDaily` | src/execution/risk_manager.hpp:61-76 | a new day clears the day's figure and only halts whose reason begins with the daily rule's name |
| `Risk.RiskManager.Seed` | src/execution/executor_main.cpp:730-748 | start-up seeding: total, peak, equity and day from the trade log |
| `Risk.PeakIsRunningMax` | src/execution/risk_manager.hpp:89-133 | over any run the peak is the greatest equity held, counting the initial peak |
| `Risk.TradeHalts` | src/execution/risk_manager.hpp:89-133 | after any history of trades and days one more trade halts for the first of these that its sums meet: the day at or below its limit, the fall from the greatest running sum at or above the cap, or the day above the given share of the earlier days, which earned at least 500 |
| `Risk.StoppedUntilLifted` | src/execution/risk_manager.hpp:89-150 | after a figure that is not finite or a halt from outside nothing is allowed until a new day or an operator, and no money has moved |
| `Risk.UnrealizedIsLast` | src/execution/risk_manager.hpp:173-180 | the unrealized result is the last finite one reported |
| `Risk.LossIsBounded` | src/execution/risk_manager.hpp:89-162 | if every trade is entered through the gate with at most a given unrealized gain and loses at most L, the day's result always exceeds the limit less L and the drawdown stays below the cap plus L plus that gain |
| `Risk.UnrealizedHidesIff` | src/execution/risk_manager.hpp:154-160 | the gate opens over a breached cap if and only if the unrealized gain exceeds the breach |
| `Risk.HaltSurvivesIff` | src/execution/risk_manager.hpp:61-109 | over any run without an operator a halt that is not daily lasts if and only if no new day finds the day's limit to be the latest rule broken, and while it lasts nothing is traded |
| `Risk.LateTradeFreesIff` | src/execution/risk_manager.hpp:61-109 | a trade closed while halted frees the account on the next day if and only if it breaks the day's limit |
| `Risk.RestartEquivalence` | src/execution/orb_db.hpp:536-550 | seeding from the log gives the equity, peak, total and day that feeding every trade and new day through the manager gives |
| `Risk.DayIsLostIff` | src/execution/executor_main.cpp:2296-2296 | after the reset that follows seeding the figures still agree, the day's if and only if it was zero |
| `Risk.RestartForgets` | src/execution/executor_main.cpp:2296-2296 | a restarted manager permits trading if and only if the drawdown is below the cap; exactly when it permits what the running one refused |
| `Orb.OrbStrategy.OnTick` | src/execution/orb_strategy.hpp:102-162 | one tick is one step: minute close, range, gates, entry with the host's calls inside the callback |
| `Orb.OrbStrategy.EndOfDay` | src/execution/orb_strategy.hpp:165-170 | the end-of-day check flattens the first time it finds the day over |
| `Orb.OrbStrategy.CheckBreakout` | src/execution/orb_strategy.hpp:299-324 | an entry sets the position flag and counts the trade after the callback returned |
| `Orb.EnteredIff` | src/execution/orb_strategy.hpp:102-162 | in any run a tick is an entry if and only if the range is set, or is by this tick, no halt, position, cooldown, limit, hour, news window or first tick after a seeded range forbids it, and its price lies beyond a level that the last price seen did not |
| `Orb.FlagsAreHistory` | src/execution/orb_strategy.hpp:170-222 | at every moment halt, position, cooldown, trade count and last time are what entries, closes, halts, seeds and resets so far make them, those inside callbacks included |
| `Orb.BarIsMinute` | src/execution/orb_strategy.hpp:109-121 | the forming bar is the minute of the last tick, with the volume of the ticks in it |
| `Orb.GivenRangeStays` | src/execution/orb_strategy.hpp:213-219 | a range given from outside is the range until a reset or another one, and entries wait for one tick after it |
| `Orb.EtMinuteIff` | src/execution/orb_strategy.hpp:240-250 | the minute of the day used is that of the Eastern clock if and only if that clock has reached 1970, or is at a full minute at least an hour before it |
| `Orb.RangeIsWindow` | src/execution/orb_strategy.hpp:102-141 | at every moment of a session the range is the highest and lowest of the unhalted ticks in the window; once set it spans two prices and no later tick is in the window |
| `Orb.EntriesCross` | src/execution/orb_strategy.hpp:299-324 | every entry is a tick beyond a level whose last unhalted predecessor was not, or had no positive price, inside the entry hours and outside the news windows |
| `Orb.EntriesCrossToday` | src/execution/orb_strategy.hpp:299-324 | from a reset, however many follow, every entry has an unhalted tick of its own session before it, so with positive prices it crosses from inside the level and the branch for a missing price is never taken |
| `Orb.EntriesSeparated` | src/execution/orb_strategy.hpp:190-206 | between two entries of a session a close is reported outside an entry's callback, and the second entry comes no earlier than the cooldown after the last tick before that close |
| `Orb.ReleaseInsideIsLost` | src/execution/orb_strategy.hpp:314-322 | after any entry the strategy holds a position, whatever was released inside the callback |
| `Orb.TradesBounded` | src/execution/orb_strategy.hpp:149-149 | the trade count is the seed plus the entries and never exceeds the larger of the seed and the limit |
| `Orb.OneFlatten` | src/execution/orb_strategy.hpp:326-333 | between resets there is at most one end-of-day flatten, and one if and only if some check found the day over |

## Left out

- Network, TLS, login and protobuf handling, and the market-data clients.
- The database itself: a statement is its effect on a map, and may fail; schema, views and metrics are not modelled.
- The branches of `write_bbo` and `write_depth` that insert without a unique index, and the depth tables.
- `BboTable.BboDb.WriteBbo`: with the unique index present; the number returned is the statement's row count, not the growth of the table, as in the source.
- `BboDurability.BboDurable`: says that no side is lost, and has the same condition on appends as `Durability.Durable`; that a stored side is one row's whole triple is `BboTable.SidesAreWhole`. The depth stream recovers nothing.
- `Durability.Durable`: needs every append to start on a line-aligned file, rows whose texts are non-empty and free of commas and line ends, and restarts that read the file; what happens otherwise is `WriteAheadLog.AppendExactIff`, `DurabilityLimits.TornRunKeepsIff` and `Durability.UnreadRestartKeepsIff`.
- `EndToEnd.AcceptedToStored`: has the same conditions; the other two streams travel through the same queue as rows of no further interest.
- `Provenance.NothingInvented`: has the same condition on appends, failed ones included; how often a trade is stored is `Duplicates.StoredAtMostSubmitted`.
- `CollectorModel.Conservation`: a row counts as logged until its stream's commit; that the log keeps it through a crash is `EndToEnd.AcceptedToStored`.
- Validation of ticks and rows before buffering, the sentinel, the audit log and the flush timers; the age of a buffer is an input.
- Floating-point rounding, infinities, and the exponent, hexadecimal and overflow forms that `std::stod` also reads; fraction digits after the sixth are dropped.
- `Calendar.OffsetIsDaylightRule`: instants before the year 1 are not covered; the trading-day results start there too.
- `JsonScan.FinderCorrect`: keys match by spelling, so a member whose key is written with escapes is not found, as in the source.
- `JsonScan.JsonStrInvertsPrinter`: for keys without a colon; `JsonScan.PrintedStringRead` covers the others.
- The numeric and boolean extractors and the configuration files.
- `FeedCursor.FeedIsScan`: new rows arrive later than rows already read, and a microsecond holds no more rows than a page.
- `QuoteMerge.BookIsPrefix`: for distinct quote time stamps; `QuoteMerge.RefillExactIff` says when equal ones lose a quote. The validity test of a quote is a parameter.
- The bytes that `WsWriteQueue` writes, and its coroutine front end; a stream completes its writes in the order in which they were started.
- `WriteQueue.DetachInFlightMismatch`: for submissions with distinct identities, which is what items are.
- `HtfAggregator.FeedIsFold`: for bars with volume, which is all that reaches the aggregation; the minute stamp of an aggregated bar is not modelled.
- `GapList.GapEngine.OnBar`: one object per side, where the source keeps both lists in one; the average range and the structure bars are inputs.
- Entry signals of the scalper, sweeps, SMT, correlation, VWAP, `percentrank`, `sma_window`, `qty_calc`, reason strings and the guardrail counters.
- `Bracket.Position.UpdateExits`: whether a market exit follows on the bar is an input.
- `Bracket.TrailFollows`: in runs whose fills keep the stop; `Bracket.RatchetIff` and `Bracket.TrailLostIff` say which do not.
- `Risk.RestartEquivalence`: the log is complete and in closing order, and its dates change where the running process resets the day.
- `Orb.RangeIsWindow`: for a session without an externally seeded range and with a clock of the day that does not run backward; time stamps are not negative.
- The order manager, the reconciler, the trend strategy, the regime filter and the notification router.
