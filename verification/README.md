# A verified model of the trading engine's core

A Dafny model of a back-testing and trading engine whose processes talk through journals in shared memory,
with proofs about the journals, the protocol that keeps the engines in step, the simulated broker and the
algorithms around them. `dafny verify dfyconfig.toml` checks all of it.

What the source changes in place is modelled by classes with fields and arrays (`JournalObjects`,
`Merge`, `BrokerObjects`, `CallBoard`, `OrderRouting`, `Clock`, `DataServices`) or by methods with loops (`Matching`, `Csv`,
the codecs, `Drawdown`). Each of their methods is held to a function of the state, and what the source
promises is proved of those functions and of all runs of them.

- **The journal.** `Frames` lays out a page as an array of cells, a field standing whole in the cell of its first
  byte; `Journals` gives the operations of writer and journal; `JournalProofs` the invariant they keep;
  `JournalLog` what a walk over the pages reads back, with and without a rollback ring; `Seek` the search by time
  and `SeekRuns` the runs that make it exact. `Publication` cuts the writer into single stores and the readers into
  single loads, on sequentially consistent memory, and lets them interleave freely; `PublicationProgress` says that
  they get on.
- **Delivery.** `Merge` is the reader that merges journals by generation time and the loop that delivers them,
  a journal being the page its cursor is on and the pages behind it; `MergePages` ties that to the memory.
- **The back-test protocol.** `LockStep` has the three engines and their six journals as a distributed system of
  FIFO channels with stamps, each with the room of one page, and `LockStepPages` ties the channels to journals.
  `LockStepInvariant` and `LockStepSteps` follow the token from station to station; `LockStepRuns` says what holds
  in every reachable state, `LockStepHistory` what becomes of all that came up in a run, `LockStepProgress` how the
  engines get on and when they stall, `LockStepStamps` exactly which stamps keep them in step, `LockStepPasses`
  what a reader does that looks at one journal after the other. `DataServices` has any number of data files instead
  of one.
- **The broker and the ledgers.** `Matching` fills one order, `BestExecution` says why no other way is better,
  `Ledger` compares the broker's books with the strategy's, `Broker` is the whole simulated broker, `BrokerRuns`
  what every run of it keeps, `BrokerReports` what it reports and at what price. Prices and volumes are reals,
  hashes of instruments are numbers.
- **Algorithms.** `Csv`, `BookCodec`, `MessageCodec` and `CodecLayouts`, `CallBoard` (the depth board), `FrameIds` and
  `OrderRouting`, `Clock`, `Drawdown`.

What the code does where one might expect something else, each with the exact condition or an input that shows it:

- A reader that steps only where `has_data` holds never steps over a page end, so the delivery loop stops
  behind the first page (`GuardedDrainStopsAtPageEnd`, `DeliversThePage`). A back-test therefore comes to a
  halt, all engines waiting, once the token or the termination has been written behind a page end
  (`NeverStuck`, `SignalLostIff`, `StallsIff`); orders and bars behind one are lost (`MatchingSeesEveryOrder`).
- A search by time can leave frames of just that time ahead, at the start of the next page, and skips later frames
  while the last page is empty (`SeekToTime`). A writer that goes on with a journal can therefore come to stand on
  the end frame of a closed page (`Resume`, `ResumesWhere`).
- The size assert of `open_frame` lets lengths pass that no page can take (`CloseBoundIff`,
  `OpenAssertIsTooWeak`); a ring of one page leaves the writer in front of the frame that ends it
  (`EntersBlankPageIff`).
- `is_full` implies that a page is closed, but not the other way round (`FullIff`).
- The engines stay in step exactly if every token that MD writes is stamped later than the bars still unread, every
  token that CP writes to TD later than the requests still unread, and every request later than the token still
  unread (`OvertakesIff`); the default unit of the clock is the millisecond (`EqualStampsBreakLockStep`).
- Even then an order written in answer to the response to a cancel may come behind the token and miss the pass
  (`MatchingSeesEveryOrder`, `LateAnswerMissesPass`).
- A reader whose pass finds nothing stays with the journal it read last and takes what has come there meanwhile; TD
  can so take the token past an order (`StaleChoiceMissesOrder`), and apart from that looking at one journal after
  the other is as good as looking at all at once (`PassIsAtomic`).
- With data files of different length the rows behind the shortest are not matched (`AllFilesAnsweredIff`).
- An empty line ends the data like the end of the file (`TerminationComesLast`).
- The broker truncates the traded volume before taking it off (`ExecutionConservesIff`,
  `FractionalOrderOvertrades`), files trades by side alone, which parts its positions from the strategy's when
  an order closes (`PositionsAgreeIff`), keeps cancelled and rejected orders in the active map, and lets an
  order for nothing wait for ever (`EmptyOrderFillsIff`). The strategy's book opens a position for a trade that
  closes what is not held (`OpenedAndClosed`). Negative volumes break the balance of its books
  (`BalancedIff`, `NegativeVolumeUnbalances`).
- A field that begins and ends with a quote does not survive the second unescaping of the CSV reader, nor does
  a row that is one empty field (`RoundTripIff`).
- A process that initialises the depth board after values were set wipes it, and can make others read the depth
  of one instrument under the name of another (`FoundIff`, `LateInitMisleads`).
- Milliseconds and seconds are rounded up while the nanosecond part is negative (`MilliIsNear`,
  `RoundsUpBeforeTheSecond`), yet never go back (`NeverBackwards`).
- One pass over a series with a negative value need not find its largest loss (`LargestIff`,
  `NegativeValuesMislead`); from a peak of zero the loss is infinite.

A condition in a `requires` that the source does not check is one its callers have to meet: frames that fit a
page, whole or non-negative volumes where a statement needs them, an instrument hash without collisions, the
room of the depth board in runs of it, journals joined before they are written to and no frame stamped in the future.

## Model

| member | source | states |
|---|---|---|
| `JournalLog.WalkChain` | core/journal/frame.h:80-84 | Stepping by the lengths stored in the headers, from any frame of a page, meets every later frame of the page in order and comes to where the last one ends. |
| `JournalProofs.LoadNextIsBlank` | core/journal/journal.cpp:47-77 | The page a writer moves on to, whether created, reused in a ring or reached by wrapping round, holds no frame, and no other page has changed. |
| `JournalProofs.ClosePageKeeps` | core/journal/writer.cpp:111-129 | Closing a page keeps every live page readable and enters an empty page; behind the last frame of the page left stands an end frame stamped with the clock at the closing, with the trigger time of the write that caused it, from the location of the journal to its destination. |
| `JournalProofs.AppendKeeps` | core/journal/writer.cpp:43-69 | Writing one frame where it fits adds that frame to the page, blanks the next header inside the page, and disturbs no other frame. |
| `JournalProofs.WriteKeeps` | core/journal/writer.cpp:35-69 | A whole write, with or without a page roll, takes a well-formed journal to a well-formed journal; every store stays in its page. |
| `JournalProofs.WriteInSteps` | core/journal/writer.h:59-101 | Open, copy, redirect and close, one after the other, amount to one write of the frame. |
| `JournalProofs.PlainInSteps` | core/journal/writer.h:68-82 | Open, copy and close amount to one write of a frame from the location of the journal to its own destination. |
| `JournalLog.WalkYieldsEveryWrite` | core/journal/journal.cpp:18-26 | After any run of writes, calling `next` from the first page as long as the frame has a length yields exactly the frames written, in order, across all pages, and ends at the writer's cursor. |
| `JournalLog.WalkFrom` | core/journal/journal.cpp:18-51 | The same from any frame boundary of any page that is still live. |
| `JournalLog.CloseBoundIff` | core/journal/writer.cpp:56-69 | After `open_frame` has found a place, the frame leaves room for the next header if and only if it would fit an empty page. |
| `JournalLog.OpenAssertIsTooWeak` | core/journal/writer.cpp:36 | Exactly which payload lengths pass the assert although no page can take them. |
| `JournalLog.RingHoldsSuffix` | core/journal/journal.cpp:47-77 | In a ring of two pages or more, over any run of writes: page numbers stay in range, the rollback mark is the current page from the first wrap on, and the live pages read oldest first hold exactly a suffix of everything written. |
| `JournalLog.EntersBlankPageIff` | core/journal/journal.cpp:47-77 | Closing a page leaves the writer in front of a blank frame if and only if the ring is not a single page. |
| `JournalLog.GuardedDrainStopsAtPageEnd` | core/eventengine.cpp:56-63 | A reader that steps only where `has_data` holds gets exactly the frames in front of the first one that did not fit the first page, a prefix of the log, and stops at the first blank or end frame; it gets everything if and only if everything fits one page. |
| `JournalLog.RingReaderSafe` | core/journal/journal.cpp:47-77 | In a ring, however much is written, a frame stays where it is and as it is exactly as long as the writer has not entered its page again; from then on the page yields the frames of the latest visit and none of the earlier one. |
| `JournalLog.OnePageIff` | core/journal/writer.cpp:43-46 | A run of writes stays on its first page if and only if the frames altogether end before the border of the page. |
| `Seek.FullIff` | core/journal/page.h:51-62 | What `is_full` says of a page: which closed pages it holds for, and that it holds for no open one. |
| `JournalObjects.Journal.FindPageId` | core/journal/page.cpp:77-93 | The page chosen is the last one that began before the time, all pages behind it having begun at or after it, or else the first; at time 0 the first. |
| `JournalObjects.Journal.SkipFullPages` | core/journal/journal.cpp:28-33 | The page loop ends, passes over exactly the pages that read as full and ended in time, up to the first that does not, and over no frame stamped later than the time. |
| `JournalObjects.Journal.SkipFrames` | core/journal/journal.cpp:34-37 | The frame loop passes over no frame later than the time and ends on a boundary where the frame, if there is one, is later. |
| `JournalObjects.Journal.SeekToTime` | core/journal/journal.cpp:28-37 | Seeking by time terminates on a frame boundary with nothing earlier behind it, and with nothing later than the time in front of it exactly if it is not the case that the last page holds no frame yet and the one before ends with a later one; a frame of just that time is still behind it exactly if the cursor is at the end of its page and the next page begins with one. |
| `SeekRuns.RunIsStamped` | core/journal/writer.cpp:35-69 | Every run of writes whose stamps and clock readings never decrease makes a log such as the search asks for: stamps never decrease along it, no page was ended before its last frame, and only the last page can be without a frame. |
| `SeekRuns.RunEndsPages` | core/journal/writer.cpp:111-129 | After any run of writes the end frame of every page that was left has the clock reading and the trigger time of the write whose frame is the first of the next page. |
| `Seek.AheadIff` | core/journal/journal.cpp:28-37 | For any boundary behind which pages begin at or after the time: what is still ahead is not earlier, and when something of just that time is. |
| `Seek.StartIff` | core/journal/page.cpp:77-93 | For the page the search starts from: nothing in front of it is later than the time exactly if no page without a frame, which reads as begun at 0, makes the search skip later frames. |
| `JournalObjects.Writer.Resume` | core/journal/writer.cpp:13-20 | A writer that goes on with the pages of a journal, without a ring, comes to stand where the one before it stood exactly if every page from the one the search for now starts from up to the last but one reads as full; otherwise it stands on the frame that ended a closed page. |
| `Seek.ResumesWhere` | core/journal/writer.cpp:13-20 | That is so if there is but one page or the last one began before now, and only then if no closed page reads as full. |
| `JournalObjects.Disk.Load` | core/journal/page.cpp:30-70 | Mapping a page that is there changes nothing; mapping one that is not creates it with a fresh header and no frame. |
| `JournalObjects.Journal.LoadPage` | core/journal/journal.cpp:39-45 | Moves the cursor to the first frame of a page, which it maps, and touches no other page. |
| `JournalObjects.Journal.Recycle` | core/journal/journal.cpp:52-62 | Clears the page in place from its first frame on, resets its last position and marks it as rolled over. |
| `JournalObjects.Journal.LoadNextPage` | core/journal/journal.cpp:47-77 | The writer enters the next page of the ring as the specification says; a reader only moves. |
| `JournalObjects.Journal.Next` | core/journal/journal.cpp:18-26 | Moves over one frame, or over an end frame to the next page, which a writer recycles on entering and a reader does not. |
| `JournalObjects.Writer.StoreEnd` | core/journal/writer.cpp:115-128 | The stores of the end frame, in place, are the end frame of the specification. |
| `JournalObjects.Writer.ClosePage` | core/journal/writer.cpp:111-129 | Loads the next page and ends the last one in place, behind its last frame, with an end frame of that stamp and trigger time. |
| `JournalObjects.Writer.OpenFrame` | core/journal/writer.cpp:35-54 | Rolls the page if the frame does not fit, then fills the header in place, all but stamp and length. |
| `JournalObjects.Writer.CopyData` | core/journal/frame.h:65-69 | Copies the payload behind the open header and nowhere else. |
| `JournalObjects.Writer.CloseFrame` | core/journal/writer.cpp:56-69 | Blanks the next header, stamps and publishes the frame, records its position and moves on. |
| `JournalObjects.Writer.WriteAs` | core/journal/writer.h:85-93 | One call grows the log by exactly that frame and keeps the journal well formed. |
| `JournalObjects.Writer.WriteData` | core/journal/writer.h:68-82 | One call grows the log by exactly that frame, from the location of the journal to its own destination, and keeps the journal well formed. |
| `PublicationStores.FrameStoresWrite` | core/journal/writer.cpp:35-69 | The single stores of a write, in program order, stay in the page and add up to the whole write. |
| `PublicationStores.EndStoresWrite` | core/journal/writer.cpp:111-129 | The single stores of a page end, in program order, stay in the page and add up to the end frame. |
| `PublicationProofs.StepKeeps` | core/journal/writer.cpp:43-69 | Every single store of the writer and every single load of a reader keeps the publication invariant, and the log only grows. |
| `PublicationProofs.SafePublication` | core/journal/frame.h:33 | Under every interleaving of stores and loads: where a frame has data, its header and payload are complete and the header behind it has no length yet or is itself completely written; every reader stands on a frame boundary and has been given, in order, exactly the log in front of it. |
| `PublicationProofs.PublishedForever` | core/journal/frame.h:80-84 | A published frame keeps its place and its contents whatever is done next. |
| `PublicationProgress.AskedIsWritten` | core/journal/writer.cpp:35-69 | An idle writer takes any frame that fits, and finitely many of its own stores later that frame, and nothing else, has been added to the log. |
| `PublicationProgress.PublishedIsRead` | core/journal/journal.cpp:18-26 | In every state that stores and loads can reach, every reader comes, by its own loads, to be given all that is published: the whole log, or all of its page if it steps only where `has_data` holds. |
| `Merge.Reader.Join` | core/journal/reader.cpp:7-18 | Adds a journal that is not joined yet, behind everything stamped up to the start time, leaves one that is, and makes a choice only if there was none. |
| `Merge.SeekOnPage` | core/journal/journal.cpp:34-37 | The frame loop of the search leaves the cursor at the first later frame of the page, or at its end. |
| `Merge.Reader.Sort` | core/journal/reader.cpp:65-75 | Chooses a journal with the earliest eligible frame; if no frame is eligible, the choice stays what it was. |
| `Merge.Reader.DataAvailable` | core/journal/reader.cpp:46-49 | After the pass the chosen journal has the earliest eligible frame, or is the one from before if no frame is eligible; the answer is whether it has a frame. |
| `Merge.Reader.Next` | core/journal/reader.cpp:58-63 | Steps the chosen journal, if one is chosen, over a frame, over a page end or not at all from a blank header, leaves the others, and chooses again. |
| `Merge.EventEngine.Drain` | core/eventengine.cpp:51-74 | Delivers a sorted interleaving that takes, of the page the cursor of each journal is on, a prefix in its own order, stops at the end time or when the engine is stopped, and leaves nothing earlier behind on these pages; its answer is false exactly if the live engine has left a frame, which then is behind the end time. |
| `Merge.DeliversExactly` | core/eventengine.cpp:51-74 | Of the page each cursor is on, exactly the frames stamped at or before the end time have been delivered, and the cursor is still on that page. |
| `MergePages.ChannelIsPage` | core/journal/frame.h:33 | `has_data` at the cursor holds exactly if the channel has a frame left, which then has the stamp in memory and the length that leads to the next. |
| `MergePages.ChannelCrosses` | core/journal/journal.cpp:18-26 | At the end of a closed page `next`, and only that, leads the channel to the first frame of the next page. |
| `MergePages.DeliversThePage` | core/eventengine.cpp:51-74 | A finished drain delivers of a journal what is stamped up to the end time on the page of its cursor, and that is all it should exactly if nothing on the pages behind is stamped so early. |
| `Merge.StreamIsUnique` | core/journal/reader.cpp:65-75 | With distinct stamps, the merged stream is determined by the journals, whatever the order of the hash map. |
| `LockStepPages.ChannelIsDrained` | core/eventengine.cpp:56-63 | The messages a channel of the protocol keeps are those whose frames a reader guarded by `has_data` ever gets from the journal. |
| `LockStepRuns.AtStep` | engines/cp/live_subscriber.cpp:135-148 | Every step of every engine, if its token is stamped in time, keeps what is known of the token, the journals, the pages and the counts. |
| `LockStepRuns.OneToken` | engines/cp/live_subscriber.cpp:135-148 | In every reachable state there is exactly one token, in a journal or about to be written, until the data has run out or the token was written behind a first page, and none after. |
| `LockStepHistory.NothingIsForgotten` | engines/td/td_engine.cpp:107-117 | Over every run, each trade a pass comes up with, each request the strategy makes and the bar of each row that yields one has been handled, is unread, was written behind the first page or is still to be written, all in the order they came up, and there are no others. |
| `LockStepHistory.MatchingSeesEveryOrder` | engines/td/td_engine.cpp:54-117 | When the trading engine takes the token, it has taken exactly what the strategy had asked for in the run, before the start or on any event, when the token was written, orders and cancels in their order, up to those written behind the first page; what is unread is stamped after the token, and there is nothing exactly if nothing was written since, as is the case if no answer to a cancel was handled since. All trades of the run have been handled. |
| `LockStepHistory.NextBarSeesEveryTrade` | engines/md/md_engine.cpp:53-62 | When the market-data engine takes the token, the strategy has handled every trade that the passes of the run came up with, in their order, and the bar of every row answered that yields one, up to those written behind the first page. |
| `LockStepRuns.EveryCancelAnswered` | broker/brokersim/brokersim.cpp:156-202 | Every cancel the trading engine has taken is answered once, and the answers reach the strategy in the order of the cancels, but for those under way and those written behind the first page. |
| `LockStepHistory.TerminationComesLast` | broker/filedataservice/filedataservice.cpp:59-116 | The termination comes only after every row in front of the first empty line has been answered and every answer matched, and after the strategy has handled all trades of the run and the bar of every such row that yields one, up to those written behind the first page; these are all the rows exactly if no line is empty. |
| `LockStepRuns.NothingLostUnlessRolled` | core/journal/frame.h:33 | As long as no journal has rolled to its second page, nothing is lost. |
| `LockStepRuns.SignalLostIff` | core/journal/writer.cpp:43-46 | Token or termination is lost exactly if MD_REQ, MD_RESPONSE or TD_REQ has rolled, or the trading engine has written a token since TD_RESPONSE rolled, or the journal of the bars has rolled and the termination was written. |
| `LockStepProgress.NeverStuck` | engines/cp/cp_engine.cpp:19-35 | As long as neither token nor termination was written behind a first page, some engine can take a step until the control engine has stopped. |
| `LockStepProgress.RunsToTheEnd` | core/eventengine.cpp:51-74 | From every reachable state some run whose writes are in time leads to where the control engine has stopped and has written all it had to, or token or termination has been lost. |
| `LockStepProgress.RoomFinishes` | engines/cp/cp_engine.cpp:19-35 | As long as neither is lost and the pages have room for so many messages, some such run leads to where all three engines have stopped and have nothing left to write, with all rows in front of the first empty one answered and matched and neither lost. |
| `LockStepProgress.LostForever` | core/journal/frame.h:33 | Once the token is lost, no further row is answered and no further pass is made, whatever the engines do, and the control engine never stops. |
| `LockStepProgress.StallsIff` | core/eventengine.cpp:56-63 | Before the control engine has stopped, the engines can come to wait for each other for ever, without losing anything more, exactly if token or termination was written behind a first page. |
| `LockStepStamps.OvertakesIff` | core/journal/reader.cpp:65-75 | From any reachable state, a step leads, by writes in time, to where a token can be read although something stamped no later is unread on the journal beside it, exactly if the step writes the token no later than the last unread bar or request, or a request no later than the unread token. |
| `LockStepStamps.EqualStampsBreakLockStep` | infra/time.h:72 | With a clock that may stand still, some run matches before the bar is handled, so that the order for it misses the pass. |
| `LockStepStamps.LateAnswerMissesPass` | engines/cp/live_subscriber.cpp:87-89 | With every write in time, an order written in answer to the response to a cancel can be unread when the trading engine takes the token. |
| `LockStepPasses.PassIsAtomic` | core/journal/reader.cpp:65-75 | Whatever the order in which the loop looks at the journals, and whatever is written between two looks: what it picks for being stamped by the time it began, a read that looks at all journals at once could pick when the loop is over. |
| `LockStepPasses.CpStaysWithNothing` | core/journal/reader.cpp:46-49 | A pass that picks nothing leaves the journal read last as the current one; where for the control engine that is MD_RESPONSE, nothing is on it, so that it never takes the token past a bar that way. |
| `LockStepPasses.StaleChoiceMissesOrder` | core/journal/reader.cpp:46-49 | For the trading engine that can be TD_REQ with the token on it: a run with all writes in time in which it takes the token although an order stamped earlier is unread. |
| `DataServices.MdEngine.OnSyncSignal` | engines/md/md_engine.cpp:53-62 | Every data service handles the token, also behind one at its end: each reads its next row and writes its bar or the termination, and the token is answered exactly if all found a row. |
| `DataServices.AllFilesAnsweredIff` | engines/md/md_engine.cpp:53-62 | With any number of files, as many tokens are answered as the shortest has rows in front of its first empty one; all such rows of all files are answered and matched exactly if all files have as many. |
| `DataServices.FilesRead` | broker/filedataservice/filedataservice.cpp:59-116 | Of every longer file one more row is read, with no pass behind its bar; the termination is on the journals of the shortest. |
| `Matching.BuildPriceLevels` | broker/brokersim/brokersim.cpp:615-637 | The usable levels of the side an order meets, in the order of the book. |
| `Matching.MatchLevels` | broker/brokersim/brokersim.cpp:306-347 | The loop records the fills of the specification, and keeps their value and volume. |
| `BestExecution.NothingMissed` | broker/brokersim/brokersim.cpp:308-343 | With levels sorted best first and funds for what it comes to, stopping at the first unacceptable level misses nothing: the volume traded is the lesser of what is wanted and of all that is on offer at acceptable prices. |
| `BestExecution.MarginalPrice` | broker/brokersim/brokersim.cpp:308-343 | There is one price, that of the marginal level, at which no allocation of acceptable levels does better than the fills by more than the difference in volume is worth. |
| `BestExecution.BestExecuted` | broker/brokersim/brokersim.cpp:308-343 | Among all ways of taking the same volume from acceptable levels none has a better total value. |
| `BestExecution.PricedBestFirst` | broker/brokersim/brokersim.cpp:433-445 | Slippage that is off, or does not turn the order of prices round, keeps a book sorted best first. |
| `BestExecution.SlippageOrderedIff` | broker/brokersim/brokersim.cpp:433-445 | Slippage keeps the order of every two prices exactly if it is off, or of a rate of at least -1 for buys and at most 1 for sells. |
| `BestExecution.BookBestFirst` | broker/brokersim/brokersim.cpp:615-637 | The usable levels of a sorted depth, at the prices the order pays, are best first. |
| `BrokerRuns.OrderFillsAreBest` | broker/brokersim/brokersim.cpp:283-358 | From a sorted depth and with funds, an order is filled with the lesser of what is left of it and of all on offer at acceptable prices, and no other way of taking as much is better. |
| `BrokerReports.LevelsAreTheBook` | broker/brokersim/brokersim.cpp:615-638 | A buy meets the asks and everything else the bids: exactly the first twenty levels shown that are usable, each price with the volume of its own side and place, in the order of the book. |
| `BrokerReports.FillsByLevel` | broker/brokersim/brokersim.cpp:308-343 | What is taken from each level, for any book and any funds: the lesser of what is wanted and what it offers, as long as no price up to it is beyond the limit, and nothing from a level the cash does not cover; volume and value of the fills are those of what is taken. |
| `BrokerReports.TradeReported` | broker/brokersim/brokersim.cpp:347-358 | With depth and fills of some volume exactly one trade is reported, of their volume, at the price that makes it worth what they are worth, with the commission on that; the cash moves by just that value and commission, the volume goes to the side of the trade, and of the orders only this one changes. |
| `BrokerReports.ReportedTradeIsBest` | broker/brokersim/brokersim.cpp:283-358 | From a sorted book, the funds sufficing, the trade reported is of the lesser of what is left and what is offered acceptably, and no other way of taking as much costs less or brings in more. |
| `BrokerReports.ReportedPriceKeepsLimit` | broker/brokersim/brokersim.cpp:360-371 | The price of the trade reported for a limit order is not beyond its limit. |
| `BrokerReports.NothingReported` | broker/brokersim/brokersim.cpp:283-358 | Without fills nothing is reported or paid, and only an order that meets no usable level and had just been submitted changes, to pending. |
| `BrokerReports.WithoutDepth` | broker/brokersim/brokersim.cpp:565-601 | Without depth all that is left is traded at once, at the limit, or at the quote worsened by the rate of slippage; or the order is in error, with nothing reported, exactly if it buys and the cash does not cover that. |
| `BestExecution.SlippageWorsensIff` | broker/brokersim/brokersim.cpp:433-445 | Slippage never betters the price for the order exactly if it is off or its rate is not negative. |
| `BestExecution.AveragePriceKeepsLimit` | broker/brokersim/brokersim.cpp:345-357 | The volume-weighted price of a limit order never breaches its limit, whatever the book, the slippage and the funds. |
| `Ledger.ExtendedValueIff` | broker/brokersim/brokersim.cpp:640-653 | When averaging a trade into a position books its full value. |
| `Ledger.BookedIff` | broker/brokersim/brokersim.cpp:385-401 | The value of one side's positions grows by exactly what the trade is worth if and only if it opens a position, extends one to more than nothing, is at the average price or is empty. |
| `Ledger.BalancedIff` | broker/brokersim/brokersim.cpp:408-426 | A trade leaves cash, fees and position costs balanced exactly under that condition. |
| `Ledger.CashAgreesIff` | core/book.cpp:461-479 | The cash of broker and strategy moves by the same amount exactly if the order buys or sells, or no money moves. |
| `Ledger.PositionsAgreeIff` | core/book.cpp:153-241 | Two ledgers with the same whole positions still agree after a whole trade exactly if the trade opens. |
| `Ledger.LedgersAgree` | core/book.cpp:153-241 | Over every sequence of buys and sells the cash of both ledgers moves alike, and over every sequence of whole opening trades they hold the same keys, volumes and average costs. |
| `Ledger.OpenedAndClosed` | core/book.cpp:153-241 | Opened volume is put on and closed volume taken off the position of the direction, which is gone exactly if nothing is left, and no other position is touched; an attempt to close what is not held opens a position. |
| `Ledger.CostIsAverage` | core/book.cpp:199-207 | The cost of what is left is the volume-weighted average of position and trade, also when the trade closes. |
| `Ledger.HeldIsOpenedLessClosed` | core/book.cpp:153-241 | Over every sequence of trades that never closes more than is held, each side of each instrument holds what was opened less what was closed, and is there exactly if that is something. |
| `Ledger.CashIsProceeds` | core/book.cpp:461-479 | Over every sequence of trades the cash of the strategy is what it began with, plus sales, less purchases, commissions and taxes. |
| `BrokerObjects.PositionBook.Update` | core/book.cpp:153-241 | A buy that opens and a sell that closes move the long position of the instrument, the others the short one: opened volume is put on, closed volume taken off, a position with nothing left removed, and nothing else touched. |
| `BrokerObjects.Book.Update` | core/book.cpp:461-479 | The strategy's book after a trade: positions, then cash, then commission and tax. |
| `BrokerObjects.BrokerSim.InsertOrder` | broker/brokersim/brokersim.cpp:116-150 | Accepts an order exactly if it sells or the cash covers it at its limit, and then files it under its id. |
| `BrokerObjects.BrokerSim.CancelOrder` | broker/brokersim/brokersim.cpp:152-210 | Cancels exactly the orders that are submitted, pending or partly filled, and answers 0, -1 or -2. |
| `BrokerObjects.BrokerSim.UpdatePosition` | broker/brokersim/brokersim.cpp:385-401 | Books a trade on the side its direction names, whatever its offset. |
| `BrokerObjects.BrokerSim.UpdateAsset` | broker/brokersim/brokersim.cpp:408-426 | Moves the cash by the value of the trade, and the commission if it is charged. |
| `BrokerObjects.BrokerSim.ExecuteSummaryTrade` | broker/brokersim/brokersim.cpp:544-562 | Takes the truncated volume off, sets the status, books the trade in both ledgers and reports it. |
| `BrokerObjects.BrokerSim.HandleNoDepthExecution` | broker/brokersim/brokersim.cpp:565-601 | Without depth a limit order trades in full at its limit and a market order at a made-up price with slippage, or is put in error for lack of funds. |
| `BrokerObjects.BrokerSim.MatchOrderWithMarketData` | broker/brokersim/brokersim.cpp:283-358 | Matches one order in each of the three cases, and with fills of some volume reports exactly one trade of their volume and their value, which is what the cash moves by. |
| `BrokerObjects.BrokerSim.ProcessOrderMatching` | broker/brokersim/brokersim.cpp:258-281 | One pass over the orders by ascending id, erasing what is filled on the way, is the fold of the single matches. |
| `BrokerChanges.FillsBounded` | broker/brokersim/brokersim.cpp:308-343 | The fills of an order never exceed what is left of it, and are whole if that and the levels are. |
| `BrokerChanges.RunChanges` | broker/brokersim/brokersim.cpp:116-281 | Every run of inserts, cancels and passes is made of small changes to one order each; what every such change keeps, every run keeps. |
| `BrokerRuns.AccountFollowsTrades` | broker/brokersim/brokersim.cpp:544-562 | After every run whatever the account is the one that the trades reported lead to. |
| `BrokerReports.FeesAreTheRate` | broker/brokersim/brokersim.cpp:522-527 | Over every run the fees kept are the rate of commission on everything reported as traded, and nothing if commission is off. |
| `BrokerReports.OrdersAreAsPlaced` | broker/brokersim/brokersim.cpp:116-150 | Over every run each active order has the instrument, side, offset, price and volume it was asked for with, and each trade reported is of an order asked for, with its instrument, side and offset. |
| `BrokerReports.PassInOrder` | broker/brokersim/brokersim.cpp:258-281 | The trades of a pass come in ascending order of the ids, at most one of each order. |
| `BrokerReports.PassReachesEveryOrder` | broker/brokersim/brokersim.cpp:258-281 | A working order that does not buy and meets no depth is traded in full by every pass, whatever the other orders are. |
| `BrokerReports.InsertAccepts` | broker/brokersim/brokersim.cpp:116-150 | A buy is accepted exactly if the cash covers it at its limit, everything else always; the order is active with all of its volume left, and nothing is paid. |
| `BrokerReports.CancelAnswers` | broker/brokersim/brokersim.cpp:152-210 | A cancel is answered once: 0 exactly if the order was active and working, which is then cancelled and kept, -2 exactly if it was not active, -1 otherwise; nothing else changes. |
| `BrokerReports.SecondCancelRefused` | broker/brokersim/brokersim.cpp:152-210 | A second cancel of the same order is answered -1, or -2 if it was never active. |
| `BrokerRuns.BooksBalance` | broker/brokersim/brokersim.cpp:385-426 | Over every run on orders of no negative volume, of any instruments and sides, with and without depth: available cash, fees and the cost of long less that of short positions equal the initial capital. |
| `BrokerRuns.NegativeVolumeUnbalances` | broker/brokersim/brokersim.cpp:640-653 | Two inserts and two passes, the second of a negative volume, after which the books do not balance. |
| `BrokerRuns.LifeCycle` | broker/brokersim/brokersim.cpp:258-281 | Over every run with new order ids and whole volumes: traded and remaining volume add up to the order's, something remains exactly as long as it is active, and its status tells whether anything was traded. |
| `BrokerRuns.NoTradeAfterEnd` | broker/brokersim/brokersim.cpp:152-210 | Once an order is filled, cancelled or in error, no run with new order ids trades it or changes it. |
| `BrokerRuns.ExecutionConservesIff` | broker/brokersim/brokersim.cpp:544-546 | One execution keeps traded plus remaining volume exactly if its volume is whole. |
| `BrokerRuns.FractionalOrderOvertrades` | broker/brokersim/brokersim.cpp:544-546 | An insert of an order for one and a half and two passes, which trade two and leave it not filled. |
| `BrokerRuns.EmptyOrderFillsIff` | broker/brokersim/brokersim.cpp:283-358 | An order for nothing is filled exactly if there is no depth to be seen and the cash is not below zero for a buy. |
| `BrokerRuns.StrategyFollowsBroker` | engines/cp/live_subscriber.cpp:91-97 | A strategy that books every trade reported has its cash move with the broker's over every run, and holds the same positions if the orders open whole volumes. |
| `Csv.EscapeField` | infra/csv.cpp:178-213 | Quotes a field that needs it and doubles its quotes, in one pass. |
| `Csv.FindPair` | infra/csv.cpp:394 | The first doubled quote from a position on, or that there is none. |
| `Csv.UnescapeField` | infra/csv.cpp:384-400 | Replacing pairs in place from left to right is the left-to-right undoubling of the field without its outer quotes. |
| `Csv.ParseLineInto` | infra/csv.cpp:409-452 | The character loop computes the parse of the line, and fails exactly on an empty line. |
| `Csv.ScanQuoted` | infra/csv.cpp:422-432 | Inside quotes, doubled text comes back as it was and the next quote closes it. |
| `Csv.RoundTripIff` | infra/csv.cpp:409-452 | Parsing the join of escaped fields gives the row back if and only if there is a row, it is not one empty field, no field begins and ends with a quote, and with several fields the delimiter is not the quote. |
| `Csv.SpecialOnlyInQuotes` | infra/csv.cpp:178-213 | No delimiter, quote or line break is written outside quotes, and a field without any is written as it is. |
| `Csv.UndoubledDoubled` | infra/csv.cpp:384-400 | Undoubling gives back what was doubled. |
| `Csv.QuotedPart` | infra/csv.cpp:409-452 | Quotes may stand anywhere in a field; what is between them is taken as it is and joined to the rest. |
| `Csv.UnclosedQuote` | infra/csv.cpp:409-452 | A quote that is never closed takes in the rest of the line. |
| `Words.Store` | core/types.cpp:49-51 | Copying bytes into the buffer writes them behind the pointer and leaves the rest. |
| `BookCodec.StoreEntries` | core/book.cpp:71-77 | Whatever order the map is gone through in, the loop writes one entry for every key. |
| `BookCodec.EncodeBook` | core/book.cpp:55-87 | Fills a buffer of exactly the size computed with both counts and all entries. |
| `BookCodec.LoadBook` | core/book.cpp:18-53 | The decoding constructor, with its two length checks on 32-bit lengths. |
| `BookCodec.BookRoundTripIff` | core/book.cpp:18-87 | For any order of the maps, decoding gives the book back exactly if both counts fit 32 bits and the size, cut to 32 bits, still covers them. |
| `BookCodec.BookRoundTrip` | core/book.cpp:18-87 | In particular for every book whose size fits 32 bits. |
| `CodecLayouts.BookLayout` | core/book.cpp:55-87 | A position book is two counts, least byte first, and the entries of the long and then of the short positions, each a key and a record, in the order the maps are gone through. |
| `CodecLayouts.BookRefusedIff` | core/book.cpp:18-36 | Data is refused as too short exactly below eight bytes, and as not matching exactly if it is shorter than what its counts call for, cut to 32 bits. |
| `MessageCodec.EncodeRegister` | core/types.cpp:43-75 | Fills a buffer of exactly the size computed, field by field. |
| `MessageCodec.EncodeDeregister` | core/types.cpp:103-127 | The same for the message without the trailing fields. |
| `MessageCodec.LoadRegister` | core/types.cpp:5-41 | Takes the fields off one after the other; where it would read behind the data there is no value. |
| `MessageCodec.RegisterRoundTripIff` | core/types.cpp:5-75 | Decoding a registration gives it back exactly if group and name are shorter than 4 GiB. |
| `MessageCodec.DeregisterRoundTripIff` | core/types.cpp:77-127 | The same for a deregistration. |
| `CodecLayouts.RegisterLayout` | core/types.cpp:43-75 | Where each field of a registration lies in the buffer, lengths least byte first. |
| `CodecLayouts.DeregisterLayout` | core/types.cpp:103-127 | The same for a deregistration. |
| `CodecLayouts.RegisterInsideIff` | core/types.cpp:5-41 | The decoder stays inside the data exactly if both lengths it finds leave room for the rest. |
| `MessageCodec.EncodeSubscribe` | core/types.cpp:140-154 | Writes the id and every key behind it, into a buffer of exactly the size computed. |
| `MessageCodec.SubscribeRoundTripIff` | core/types.cpp:129-154 | Decoding a subscription gives it back exactly if its keys take less than 4 GiB. |
| `CodecLayouts.SubscribeLayout` | core/types.cpp:140-154 | A subscription is its id and then its keys, one after the other. |
| `CallBoard.DepthCallBoard.Get` | extension/depthcallboard.h:17-42 | Looks in the cached slot or scans, remembers what it finds, and reports absence exactly if the instrument has no slot. |
| `CallBoard.DepthCallBoard.Set` | extension/depthcallboard.h:44-59 | Writes the cached slot or takes a new one, and stays inside the buffer exactly if there is room; does nothing in a process that does not write. |
| `CallBoard.DepthCallBoard.Init` | extension/depthcallboard.cpp:8-16 | Zeroes the buffer for every process, and forgets nothing that a process remembers. |
| `CallBoard.Scan` | extension/depthcallboard.h:25-35 | The linear scan finds the first slot of the instrument. |
| `CallBoard.FoundIff` | extension/depthcallboard.cpp:8-16 | Over any interleaving of inits, sets and gets within the capacity, every instrument set is found by scanning with its last value exactly if no init followed an effective set. |
| `CallBoard.CachedLookupIsLastSet` | extension/depthcallboard.h:17-59 | And then every process' cached lookup is what scanning finds, for every instrument: the value last set, or absence. |
| `CallBoard.LateInitMisleads` | extension/depthcallboard.cpp:8-16 | After a late init a process can get, under the name of one instrument, the depth of another. |
| `CallBoard.InitEmpties` | extension/depthcallboard.cpp:8-16 | After an init nothing is found by scanning, and a process that remembers a slot is given a depth without any level. |
| `FrameIds.SameFrameIdIff` | core/journal/writer.cpp:28-33 | Two frames of one writer get the same id exactly if their pages and their numbers in them agree modulo 2^16. |
| `FrameIds.IdParts` | core/journal/writer.cpp:28-33 | The high half of an id names location and destination; the low half, the hash of the start time taken out, has 16 bits of the page above 16 bits of the frame number. |
| `FrameIds.RestartsApartIff` | core/journal/writer.cpp:13-17 | A writer started again gives the same frame another id exactly if its start time hashes differently. |
| `FrameIds.RoutesBackIff` | core/uid_util.h:7 | Decoding an id yields the destination of its writer exactly with the location of that writer, for every page, number and start-time hash. |
| `FrameIds.DestinationsApart` | core/journal/writer.cpp:13-17 | Writers of one location to different destinations never give out the same id. |
| `OrderRouting.LiveExecutor.InsertOrder` | strategy/live_executor.cpp:15-28 | An inserted order is written on the journal of its account under an id that names that account. |
| `OrderRouting.SameIdIff` | strategy/live_executor.cpp:15-28 | Two orders for one account get the same id exactly if the writer stands at places that agree in the low 16 bits of page and frame number. |
| `OrderRouting.LiveExecutor.CancelOrder` | strategy/live_executor.cpp:36-48 | A cancellation is written where its target was inserted, under an id that names the same account to the trading side. |
| `Clock.NanoIsExact` | infra/time.cpp:17-44 | Whatever the readings, nanosecond time is the base plus what the steady clock has gone since. |
| `Clock.MilliIsNear` | infra/time.cpp:46-48 | Milliseconds are rounded down where the nanosecond part is not negative and up where it is, always by less than one. |
| `Clock.NeverBackwards` | infra/time.cpp:115-130 | On a steady clock that does not go back, none of nanoseconds, milliseconds and seconds does. |
| `Clock.RoundsUpBeforeTheSecond` | infra/time.cpp:127-130 | Readings with which the milliseconds are ahead of the time. |
| `Clock.Time.Reset` | infra/time.cpp:297-301 | Takes both clocks anew. |
| `Clock.Time.NowInNano` | infra/time.cpp:115-118 | Exactly the system time taken plus what the steady clock has gone since. |
| `Clock.Time.NowInMilli` | infra/time.cpp:127-130 | Within a millisecond of the exact time. |
| `Clock.Time.NowInSec` | infra/time.cpp:122-125 | Within a second of the exact time. |
| `Drawdown.MaxDrawdown` | algorithm/algorithm.h:115-138 | The loop computes the pass, for every series; and for one that begins above zero the result is the largest of (a_i - a_j) / a_i over all pairs i <= j with a_i above zero exactly under the condition below. A series that begins at zero or below is covered by `BeginsAtOrBelowZero`. |
| `Drawdown.LargestIff` | algorithm/algorithm.h:115-138 | One pass over a series that begins above zero finds that largest loss exactly if no value is negative, or some negative value has all positive values up to it equal and lies at least as far below zero, in parts of the first value, as every other in parts of the least positive value up to it. |
| `Drawdown.BeginsAtOrBelowZero` | algorithm/algorithm.h:115-138 | Over a series that begins at zero or below, the loss is infinite exactly if a negative value comes behind a zero and before any positive one; otherwise it is that of the series from its first positive value on. |
| `Drawdown.NegativeValuesMislead` | algorithm/algorithm.h:115-138 | A series with a negative value for which it does not. |

## Left out

- Mapping of files, locks and their time-outs, event descriptors, process and thread start-up, file paths and
  directory listing: operating-system plumbing; page files are given and their ids listed in order.
- `copy_frame`, `mark`, `write_raw`: the same open and close around another way of copying.
- Weak memory: stores and loads are taken one at a time in program order.
- JournalObjects.Journal.SeekToTime: journals that never recycle pages; `JournalObjects.Writer.Resume` likewise, for a log whose stamps are not later than now.
- PublicationProofs.SafePublication: pages are not recycled under the readers, store by store; `RingReaderSafe` says, write by write, how long a reader of a ring is safe.
- Merge.Reader.DataAvailable: the pass and the check behind it are one step, and the stale choice the pass can leave is kept as in the code.
- LockStep.Chosen: a read looks at all joined journals at once and never stays with the journal read last; `LockStepPasses` says what the passes of the code add to that, a frame being stamped and published in one step.
- A ring of one page: no operation of the writer is modelled on it beyond `EntersBlankPageIff`.
- `LockStep` has one market-data service (`DataServices` has any number, without the other engines) and one trading account; a broker is ready once it was started, and one that is not ready drops requests without an answer. Start-up failures of services, and rows of fewer than two columns, whose fields are read all the same, are not modelled.
- Live trading services, network clients, signing, logging, plug-in loading, user interface, bots and language bindings.
- Floating-point rounding: `double` is a real number. Integer widths are modelled where they decide something: the 32-bit lengths of the codecs and the ids; the 64-bit times and counters are unbounded.
- `generate_market_price`: the price it makes up is a parameter; order, trade and account times and external ids are not modelled.
- BrokerRuns.BooksBalance: says nothing of cash below zero, because the funds are checked level by level and not for all fills together.
- Realised and unrealised profit, margins, the other books of `core/book.cpp` and the other ratios of `algorithm/algorithm.h`: stubs or plain expressions.
- Csv.RoundTripIff: is about escaping and parsing one line; `write_row` does not call the escaper, and line breaks inside a field are cut by the line reader before it.
- `next_minute`, calendar functions, formatting and parsing of times.
- Strategies are arbitrary: they answer an event with any list of orders and cancels.
