# Order book verification

A Dafny model of the order book system in this repository, and proofs about it. The system
builds the same NASDAQ TotalView-ITCH 5.0 limit order book several times over: a fast
software book checked against a map-based reference, a hardware book checked against a golden
model, byte streams framed and unwrapped in software and in hardware, and a queue overlay
that simulates our own orders against the replicated market. The proofs show when these copies
agree, for every input, run, interleaving and cut of a byte stream.

    dafny verify dfyconfig.toml

## Layout

- `Itch`, `LiveOrders`, `BookSpec`: messages, live orders as a finite map, and levels as sums over them.
- `OrderRefTable`, `OrderBook`, `BookEngine`, `ReferenceBook`, `BookAgreement`: the software books.
- `QueueSpec`, `QueueProofs`, `QueueExact`, `QueueTheorems`, `QueuePriority`, `QueueLedger`, `FillEngine`, `Session`, `SweepsBook`: the queue-position overlay.
- `RtlSpec`, `RtlOrderRefTable`, `RtlBestTracker`, `RtlBookEngine`, `RtlBookProofs`, `RtlBookSteps`, `RtlBookTheorems`, `RtlDrops`, `RtlBookClass`: the hardware book.
- `Wire`, `RtlFramer`, `RtlPipeline`, `RefModel`, `RtlAgreement`: bytes to book, and the golden book.
- `MoldParser`, `MoldCounts`, `MoldWrap`, `MoldStripper`, `MoldAgreement`, `RtlMoldTop`: MoldUDP64 in software and hardware, and the hardware path from datagrams to book.
- `StrategyProgram`, `StrategyWindows`, `StrategySemantics`, `StrategyVM`, `StrategyRuns`, `StrategyLaws`: strategy bytecode.
- `BandFilter`, `Generator`, `SpscQueue`, `Modulo`: the stream filter, the stream generator, the queue between threads.

Hardware blocks are modelled twice over: as a value of all registers with a function that
computes one clock edge, and as a class whose methods write those registers; each class is
proved to compute the function, and the properties are proved about the function.

## How the exact conditions are stated

Several properties hold only under a condition, and the code does not check it. Each is
stated as an equivalence with a condition that can be decided beforehand, and each condition
has a failing input.

- Queue positions stay exact if and only if a message is *faithful*
  (`QueueTheorems.PositionsStayExactIff`). The overlay clamps a reduction the book rejects
  (sw/trade/fill_engine.cpp:81, 88; `OversizedExecuteBreaks`), and it trusts that references
  only grow.
- The reference book keeps the fast book's orders if and only if a message is *harmless*
  (`ReferenceBook.ReferenceBook.Apply`); an Add that repeats a live order word for word keeps
  the orders but counts its level twice (`RepeatedAdd`).
- The vector level scans compare as signed 32-bit numbers and equal the scalar scans if and
  only if the level found is in the scalar tail or below 2^31 shares (`VectorScansMiss`).
- The vector key probes advance past the end of the key array without wrapping when their
  windows land exactly on it (sw/book/order_ref_table.hpp:173-179, 200-205), although the
  comment there says wraparound is handled. `ProbeVector` reports exactly when, and
  `VectorProbeOverrun` reaches such a table by five insertions.
- A hardware insertion fails if and only if its 64-slot window has no true empty slot and no
  tombstone before the last slot (`LastTombstoneMissed`); the theorems about the book hold as
  long as none failed.
- The golden book of the simulation stays exact if and only if an arriving reference is not
  live and its size is positive (`RepeatedArrivals`).
- The band filter's window and the hardware's agree if and only if the window ends within the
  32-bit price range (`WrappedWindowDiffers`). Given that, banding and filtering commute if and
  only if every in-window arrival that names a live reference repeats that very order
  (`Commutes`; `ReusedReferenceDiffers`).
- The band filter's bytes deliver the filtered messages if and only if no body is a Replace of
  another length than its type's, priced outside the window (`FilterBytesFiltersMessages`;
  `StrayRevives`). It splits a stream as the framer does if and only if no frame is empty
  (`PiecesAreFrames`; `EmptyFrameStops`).
- On a bar on which every signal fires, a program stays inside the 32-place stack if and only
  if the validator's depth plus the signal instructions repeated so far never passes 32
  (`RepeatsAreSkips`). On other bars this is enough (`RoomyStaysInside`).
  `RepeatedSignalOverflows` gives an accepted program that leaves the stack.

Other hypotheses are the source's own: live orders below the table capacity when an entry is
erased (the erase loop has no other exit), level totals and counters within their register
widths, arrivals at the hardware book that carry shares, datagrams that hold the blocks they
announce.

## Model

| member | source | states |
|---|---|---|
| QueueTheorems.PositionsStayExactIff | sw/trade/fill_engine.cpp:71-109 | for every market message: queue positions that were exact (market shares with ref up to the watermark, plus our earlier orders at the level) are exact for the book after the message if and only if the message is faithful, a test on the state before it |
| QueueTheorems.BeyondIsWhole | sw/trade/fill_engine.cpp:76-105 | a quantity beyond the resting size acts as that size; deletes and replaces act on the queue as a cancel of everything |
| QueueTheorems.IncreasingAcceptedIsFaithful | sw/trade/fill_engine.hpp:11-16 | messages the book does not reject, arriving with references above every watermark, are faithful |
| QueueTheorems.OversizedExecuteBreaks | sw/trade/fill_engine.cpp:81-81 | an execution of 11 shares on a 10-share order, which the book rejects, leaves a position inexact |
| QueueTheorems.PutExact | sw/trade/fill_engine.cpp:73-76 | a new market order leaves all positions exact precisely when no open order of ours would count it as already there |
| QueueTheorems.RemoveExact | sw/trade/fill_engine.cpp:159-165 | a cancel, delete or replace-out leaves every position exact for the smaller market; no subtraction saturates |
| QueueExact.ExecExact | sw/trade/fill_engine.cpp:119-157 | an execution leaves every surviving position exact, for the market after it |
| QueueExact.AtLevelFills | sw/trade/fill_engine.cpp:136-155 | with exact positions the leftover fill is always zero: at the level only orders the market traded through are filled, first in first out |
| QueueExact.PriceThroughFills | sw/trade/fill_engine.cpp:119-134 | orders of ours at a better price share the executed quantity first in first out |
| QueueTheorems.FifoTotal | sw/trade/fill_engine.cpp:125-154 | a pass fills exactly the smaller of its budget and what the eligible orders still want: at most q shares per pass |
| QueueTheorems.FifoGiven | sw/trade/fill_engine.cpp:125-154 | each order gets what the orders before it leave of the budget, up to its own remainder |
| QueueTheorems.TimePriority | sw/trade/fill_engine.cpp:125-154 | an order is filled only if every earlier eligible one is complete |
| QueueTheorems.EarlierIsEligible | sw/trade/fill_engine.cpp:138-154 | at one level an earlier order of ours is eligible whenever a later one is |
| QueueLedger.SweepTotal | sw/trade/fill_engine.cpp:17-38 | the marketable sweep takes everything displayed up to its limit, capped by its size |
| QueueLedger.SweepRecord | sw/trade/fill_engine.cpp:17-38 | every taker fill is at a displayed price within the limit, for what better prices left over |
| SweepsBook.TakesCrossing | sw/trade/fill_engine.cpp:12-38 | for every price within the limit: the taker fills at prices no worse than it come to the sizes of all live orders of the other side there, or to the whole size submitted if that is less |
| SweepsBook.DepthIsCrossing | sw/trade/fill_engine.cpp:17-38 | what the sweep walks over from the touch on is every live order it crosses |
| SweepsBook.BookDisplays | sw/trade/fill_engine.cpp:17-38 | the conditions of this hold for every book in order |
| QueueLedger.SweepInPrices | sw/trade/fill_engine.cpp:17-38 | every taker fill lies between the touch and the limit, for no more than is displayed there |
| QueueLedger.SweepTakesAll | sw/trade/fill_engine.cpp:17-38 | a submission the sweep does not fill whole took everything displayed at every price up to its limit |
| QueueLedger.CancelExact | sw/trade/fill_engine.cpp:54-63 | cancelling one of our orders keeps every other position exact |
| QueueLedger.RestExact | sw/trade/fill_engine.cpp:40-50 | a newly rested order starts at its exact position |
| QueueLedger.MarketConserves | sw/trade/fill_engine.cpp:71-174 | no market message creates or loses a share of ours, exact positions or not |
| QueueLedger.SubmitConserves | sw/trade/fill_engine.cpp:12-52 | taker fills and the rested remainder account for the whole submission |
| QueueLedger.CancelConserves | sw/trade/fill_engine.cpp:54-63 | a cancel returns exactly the remaining shares to the ledger |
| FillEngine.FillEngine.TakeDisplayed | sw/trade/fill_engine.cpp:17-38 | both sweep loops, with the 32-bit price counter, compute the specified sweep and leave the book alone |
| FillEngine.FillEngine.SubmitLimit | sw/trade/fill_engine.cpp:12-52 | the whole new state; tracking of exact positions and conservation are kept |
| FillEngine.FillEngine.Cancel | sw/trade/fill_engine.cpp:54-63 | removes the first order with the reference and moves later ones up; false exactly when there is none |
| FillEngine.FillEngine.OnMarketMessage | sw/trade/fill_engine.cpp:71-109 | the overlay after any message, as a function of the book before it |
| FillEngine.FillEngine.HandleExec | sw/trade/fill_engine.cpp:119-157 | both fill passes and the erase loop, as loops over the open orders; every new fill is on the executed side at a price no worse than the executed one |
| QueuePriority.FillsInPrices | sw/trade/fill_engine.cpp:119-157 | every new fill is of an open order of ours on the executed side, at its own price, no worse than the executed one; orders at worse prices or on the other side keep their shares |
| QueuePriority.PricePriority | sw/trade/fill_engine.cpp:125-134 | orders at strictly better prices together get all they want or all that was executed; while one of them is incomplete they got exactly the executed quantity |
| QueuePriority.QueueFirst | sw/trade/fill_engine.cpp:136-155 | where the executed order was in front of all of ours, each of ours at the level first loses the queue in front of it, then fills with what is left |
| QueuePriority.BetterFirst | sw/trade/fill_engine.cpp:125-134 | the first pass in prices |
| QueuePriority.ThenLevel | sw/trade/fill_engine.cpp:136-155 | the second pass fills orders at the executed price only |
| FillEngine.FillEngine.HandleRemove | sw/trade/fill_engine.cpp:159-165 | the drain loop |
| FillEngine.FillEngine.ReduceLater | sw/trade/fill_engine.cpp:167-174 | moves exactly our later orders at the level up, in place |
| FillEngine.FillEngine.EraseFilled | sw/trade/fill_engine.cpp:176-180 | drops exactly the completed orders, keeping order |
| FillEngine.FillEngine.TakeFills | sw/trade/fill_engine.hpp:85-90 | hands out the accumulated fills once |
| FillEngine.Process | sw/trade/session.hpp:87-89 | overlay before book: positions stay exact if and only if the message is faithful |
| Session.RunSession | sw/trade/session.hpp:72-97 | every session over a good feed, with any submissions, cancels and polls in between, ends in the specified state (live orders, open orders, fills, ledger), with exact positions; of every submitted size, fills, remainder and cancelled shares are the whole, and fills and remainder alone when the order was never cancelled |
| Session.Perform | sw/trade/session.hpp:87-89 | one market message, submission, cancel or poll moves book, overlay and ledger exactly as specified on values |
| Session.LedgerIsSizes | sw/trade/fill_engine.cpp:12-16 | the k-th submission gets the k-th reference, and the ledger holds exactly the sizes submitted |
| Session.NotCancelled | sw/trade/fill_engine.cpp:54-63 | shares are cancelled only by a cancel of that very order |
| Session.TouchIsNearest | sw/trade/fill_engine.cpp:17-28 | a sweep starts at the lowest ask or highest bid of the live orders |
| Session.PositionFits | sw/trade/fill_engine.hpp:65-65 | exact positions fit the 64-bit counter |
| OrderRefTable.OrderRefTable.constructor | sw/book/order_ref_table.hpp:48-58 | an empty table, capacity rounded up to a power of two |
| OrderRefTable.OrderRefTable.Insert | sw/book/order_ref_table.hpp:65-79 | insert or overwrite of a finite map; refused only for key 0 or a full table |
| OrderRefTable.OrderRefTable.FindIndex | sw/book/order_ref_table.hpp:82-95 | finds exactly the present keys, with their values |
| OrderRefTable.OrderRefTable.ProbeScalar | sw/book/order_ref_table.hpp:144-153 | the scalar probe answers for the finite map |
| OrderRefTable.OrderRefTable.ProbeVector | sw/book/order_ref_table.hpp:155-210 | the 4- and 8-lane probes give the scalar answer, except that they read one slot past the array exactly when the windows land on its end with nothing found |
| OrderRefTable.VectorProbeOverrun | sw/book/order_ref_table.hpp:158-183 | five insertions into an empty table of eight slots reach a layout on which the 4-lane probe leaves the array although the key is present |
| OrderRefTable.FiveWrap | sw/book/order_ref_table.hpp:65-79 | five keys of home 4 in eight slots fill slots 4 to 7 and wrap to slot 0 |
| OrderRefTable.OrderRefTable.Erase | sw/book/order_ref_table.hpp:98-118 | removes exactly one key; needs an empty slot if the key is present, else the loop would not end |
| OrderRefTable.OrderRefTable.ShiftBack | sw/book/order_ref_table.hpp:101-115 | the backward-shift loop closes the hole: no gap on any probe path, keys unique, contents unchanged; it terminates |
| OrderRefTable.HoleMove | sw/book/order_ref_table.hpp:106-113 | moving a displaced key into the hole moves the hole, for any hash and across the wrap |
| OrderRefTable.FillSlot | sw/book/order_ref_table.hpp:69-77 | writing a fresh key where its probe stopped keeps the layout |
| OrderRefTable.EmptyMeansAbsent | sw/book/order_ref_table.hpp:144-153 | an empty slot on the probe path proves absence |
| OrderRefTable.Occupancy | sw/book/order_ref_table.hpp:60-62 | the table has an empty slot exactly when fewer keys are live than slots exist |
| OrderBook.OrderBook.Add | sw/book/order_book.hpp:54-76 | one level grows, the best price follows, or nothing changes |
| OrderBook.OrderBook.Remove | sw/book/order_book.hpp:80-109 | one level shrinks and the best price is again the best, or nothing changes |
| OrderBook.OrderBook.Replace | sw/book/order_book.hpp:111-130 | both levels move together or nothing does; `removed && added` never fails half way |
| OrderBook.OrderBook.ScanDown | sw/book/order_book.hpp:138-158 | the scalar scan finds the highest non-empty level at or below the start |
| OrderBook.OrderBook.ScanUp | sw/book/order_book.hpp:161-182 | the scalar scan finds the lowest non-empty level at or above the start |
| OrderBook.OrderBook.ScanDownVector | sw/book/order_book.hpp:142-157 | the 8-wide scan equals the scalar one if and only if the level found lies in the scalar tail or its total is below 2^31 |
| OrderBook.OrderBook.ScanUpVector | sw/book/order_book.hpp:166-181 | the same for the upward scan |
| OrderBook.VectorScansMiss | sw/book/order_book.hpp:142-181 | a level of 2^31 shares that both 8-wide scans miss |
| OrderBook.SignedIs | sw/book/order_book.hpp:149-150 | the lanes compare 32-bit patterns as two's-complement numbers |
| BookEngine.BookEngine.Apply | sw/book/order_book.hpp:259-281 | status, trade print and live orders of every message; every level, count and best price stays exact, so a rejected message changes none of them; an execution prints at the level that lost the printed shares, or at its own price |
| BookEngine.PrintLaws | sw/book/order_book.hpp:342-350 | where an applied message prints, seen on the levels: type E at the resting price, type C at its own and only when printable, a Trade as it stands, nothing else |
| BookEngine.StatusLaws | sw/book/order_book.hpp:306-398 | what each status tells about the message and the live orders |
| BookEngine.BookEngine.OnAdd | sw/book/order_book.hpp:306-326 | accepted exactly when well formed, fresh, fitting and with room; the rollback branch is unreachable |
| BookEngine.BookEngine.OnReduce | sw/book/order_book.hpp:328-353 | execute and cancel; ResyncRequired is unreachable |
| BookEngine.BookEngine.OnDelete | sw/book/order_book.hpp:355-366 | delete; ResyncRequired is unreachable |
| BookEngine.BookEngine.OnReplace | sw/book/order_book.hpp:368-398 | replace; both rollbacks are unreachable |
| BookEngine.BookEngine.GetOrMake | sw/book/order_book.hpp:297-304 | a missing book is created empty; nothing else changes |
| BookEngine.AddGuard | sw/book/order_book.hpp:315-316 | the level guard accepts exactly the additions whose total fits 32 bits |
| BookEngine.ReplaceGuard | sw/book/order_book.hpp:379-380 | the replace guard accepts exactly the replacements whose new total fits 32 bits |
| BookSpec.EmptyTogether | sw/book/order_book.hpp:59-59 | a level has shares exactly when it has orders |
| BookSpec.OrderInLevel | sw/book/order_book.hpp:86-90 | a live order's level covers it, and it is all of the level exactly when it is the only order |
| BookSpec.AddMoves | sw/book/order_book.hpp:306-326 | an Add adds its shares and one order to one level and changes no other |
| BookSpec.ReduceMoves | sw/book/order_book.hpp:328-366 | executions, cancels and deletes take shares from the level the order rests on, and the order when nothing is left |
| BookSpec.ReplaceMoves | sw/book/order_book.hpp:368-398 | a Replace moves from the old level to the new price on the same side of the same book |
| BookSpec.AppliedExactly | sw/book/order_book.hpp:306-398 | a message is applied if and only if it makes sense and the book after it fits 32-bit levels and the table |
| ReferenceBook.OrdersAgree | sw/book/reference_book.hpp:61-74 | which messages leave both books with the same live orders, exactly |
| ReferenceBook.ReferenceBook.Apply | sw/book/reference_book.hpp:61-74 | from an exact state the reference book stays exact with the fast book's orders if and only if the message is harmless |
| ReferenceBook.ReferenceBook.OnAdd | sw/book/reference_book.hpp:114-118 | keeps every level exact for fitting adds, and breaks a level on a word-for-word repeat |
| ReferenceBook.RepeatedAdd | sw/book/reference_book.hpp:114-118 | such a repeat: the fast book rejects it, the reference book's level counts it twice |
| ReferenceBook.ReferenceBook.OnReduce | sw/book/reference_book.hpp:119-140 | clamps oversized reductions; every level stays exact |
| ReferenceBook.ReferenceBook.OnDelete | sw/book/reference_book.hpp:141-148 | removes the order; every level stays exact |
| ReferenceBook.ReferenceBook.OnReplace | sw/book/reference_book.hpp:149-159 | delete then add on the same side; exact when the new order fits |
| BookAgreement.ExactBooksAgree | sw/book/reference_book.hpp:77-109 | equal live orders make every query of both books equal: shares at every price, best bid, best ask |
| BookAgreement.ReplayBoth | sw/book/order_book.hpp:10-12 | any stream of harmless messages leaves both books with the same answers |
| RtlOrderRefTable.EdgeStep | rtl/order_ref_table.sv:93-221 | one clock edge in every state: the table stays a finite map, and a command ends within its cycle budget |
| RtlOrderRefTable.ProbeStep | rtl/order_ref_table.sv:132-211 | every probe cycle moves on or finishes with the map operation, or fails exactly when the window has no true empty slot and no tombstone before its 64th |
| RtlOrderRefTable.WriteSlot | rtl/order_ref_table.sv:140-151 | writing at the remembered tombstone, the key itself or the empty slot keeps every key unique and reachable |
| RtlOrderRefTable.FullOrNot | rtl/order_ref_table.sv:160-172 | the failure branch is taken exactly on a full window; a tombstone in the 64th slot is missed |
| RtlOrderRefTable.LastTombstoneMissed | rtl/order_ref_table.sv:154-172 | clocked from an empty table: 64 insertions of one home and a deletion in the last slot, after which an insertion fails although that slot is free |
| RtlOrderRefTable.OrderRefTable.Clock | rtl/order_ref_table.sv:93-221 | the clocked block computes the next registers |
| RtlOrderRefTable.OrderRefTable.StepInsert | rtl/order_ref_table.sv:133-174 | the insert cycle; a failed insert leaves `found` as it was |
| RtlOrderRefTable.OrderRefTable.StepFind | rtl/order_ref_table.sv:175-210 | the lookup and delete cycle |
| RtlOrderRefTable.OrderRefTable.Execute | rtl/order_ref_table.sv:93-221 | a whole command is a finite-map operation within 69 cycles |
| RtlBestTracker.AddStep | rtl/best_tracker.sv:54-63 | after an add pulse the best level is right |
| RtlBestTracker.EmptiedStep | rtl/best_tracker.sv:64-73 | a scan starts exactly when the emptied level was best and the side has orders; otherwise the best is right after one cycle |
| RtlBestTracker.ScanStep | rtl/best_tracker.sv:76-88 | a scan moves one level a cycle to the nearest level with shares; its boundary branch is never reached |
| RtlBestTracker.BestTracker.Clock | rtl/best_tracker.sv:46-93 | the clocked block computes the next registers |
| RtlSpec.BandedAfterBanded | rtl/book_update_engine.sv:203-220 | banding keeps only in-window orders with shares |
| RtlBookTheorems.EveryEdge | rtl/book_update_engine.sv:238-510 | every clock edge, in every state, keeps table, levels, counters and best prices in step with the live orders, unless an insertion failed; accepted arrivals carry shares and fit the registers |
| RtlBookTheorems.EveryRun | rtl/book_update_engine.sv:238-510 | so does every run of such messages |
| RtlBookTheorems.DoneShows | rtl/book_update_engine.sv:503-506 | when a message is done: level shares and counts, side volumes, best prices and table are exactly those of the banded live orders |
| RtlBookTheorems.EveryMessageCompletes | rtl/book_update_engine.sv:441-459 | every edge of a message uses up bounded work, so it completes; EMPTY_WAIT always ends |
| RtlBookSteps.StepEmpty | rtl/book_update_engine.sv:419-440 | a scan is expected exactly when the tracker will then scan |
| RtlBookSteps.StepEmptyWait | rtl/book_update_engine.sv:441-459 | the wait ends with the right best level, never one without shares; an out-of-window replacement is then dropped |
| RtlBookSteps.StepIdle | rtl/book_update_engine.sv:272-305 | acceptance, banding, and centring on the first Add |
| RtlBookSteps.StepAddTbl | rtl/book_update_engine.sv:308-330 | a refused insertion creates no depth |
| RtlBookSteps.StepModLvl | rtl/book_update_engine.sv:369-399 | the level, count and volume lose exactly what the order loses |
| RtlBookSteps.StepReaddTbl | rtl/book_update_engine.sv:462-484 | the replacement rests under its new reference or not at all |
| RtlBookClass.BookUpdateEngine.constructor | rtl/book_update_engine.sv:239-260 | reset, with or without a band pinned by the host before traffic, satisfies the invariant for no orders |
| RtlBookClass.BookUpdateEngine.Clock | rtl/book_update_engine.sv:238-510 | the clocked engine with its sub-blocks computes the next state |
| RtlBookClass.BookUpdateEngine.TableStates | rtl/book_update_engine.sv:308-330 | the four table-handshake states |
| RtlBookClass.BookUpdateEngine.EmptyState | rtl/book_update_engine.sv:419-440 | the emptied pulse and the expected-scan flag |
| RtlBookClass.BookUpdateEngine.WaitState | rtl/book_update_engine.sv:441-459 | the wait for the scan |
| RtlBookClass.BookUpdateEngine.OtherStates | rtl/book_update_engine.sv:331-346 | acceptance, level updates and finish |
| Wire.FramesOfFramed | rtl/itch_framer.sv:1-4 | framing then parsing yields the same bodies, with whatever follows |
| Wire.OwnBytes | rtl/itch_decoder.sv:39-93 | a message is decoded from its own bytes, whatever stale bytes lie behind it in the 48-byte buffer |
| RefModel.DecodersAgree | sim/reference_model.cpp:20-67 | the hardware decoder and the golden one, which reads byte ranges as numbers, agree on every field and type of every delivered body |
| RefModel.EightBytes | sim/reference_model.cpp:6-17 | big-endian fields are the numbers their bytes spell |
| Wire.DecodeEncode | rtl/itch_decoder.sv:39-93 | the hardware decoder reads back every field the generator wrote |
| Wire.HeaderRead | sw/util/itch_gen.hpp:137-148 | type, locate and timestamp sit where the decoder looks |
| RtlFramer.EveryEdge | rtl/itch_framer.sv:127-163 | every edge, for every beat and acceptance: no byte lost, duplicated or reordered; latched messages are those of the finished frames; the window stays within 32 bytes |
| RtlFramer.InOrder | rtl/itch_framer.sv:114-120 | messages handed to the book are a prefix of the byte-level parse, once each, in order |
| RtlFramer.StuckMeansDone | rtl/itch_framer.sv:87-99 | without input the front stops only behind a held message in S_SETTLE or with every complete frame delivered and room for a beat |
| RtlFramer.MovesForward | rtl/itch_framer.sv:67-92 | otherwise every cycle makes progress |
| RtlFramer.EveryCutAndSchedule | rtl/itch_framer.sv:1-24 | from reset, for every cut into beats and every acceptance schedule, delivery depends on the bytes alone |
| RtlFramer.LatchEdge | rtl/itch_decoder.sv:95-118 | a message is latched exactly for frames whose length is their type's |
| RtlFramer.ItchFramer.Clock | rtl/itch_framer.sv:67-163 | the clocked framer computes the next registers |
| RtlFramer.ItchFramer.Compact | rtl/itch_framer.sv:101-112 | survivors shift down, the beat appends behind them |
| RtlFramer.ItchDecoder.Clock | rtl/itch_decoder.sv:95-118 | the clocked decoder computes the next registers |
| RtlPipeline.EveryEdge | rtl/orderbook_top.sv:160-196 | framer, decoder and engine on one clock: the book always holds the completed prefix of the stream's messages |
| RtlPipeline.ComesToRest | rtl/orderbook_top.sv:160-196 | without input the chip always comes to rest |
| RtlPipeline.RestShows | rtl/orderbook_top.sv:160-196 | at rest the outputs are the banded book of all messages of the bytes, and the drop counter the number turned away |
| RtlPipeline.OrderBookTop.Clock | rtl/orderbook_top.sv:160-196 | one edge of the wired blocks |
| RtlPipeline.OrderBookTop.Play | rtl/orderbook_top.sv:160-196 | playing any stream with any cuts, under a pinned or centred window, ends with exactly those outputs, or a failed insertion is reported |
| RtlMoldTop.EveryEdge | rtl/orderbook_top.sv:150-196 | MoldUDP64 stripper, framer, decoder and engine on one clock, the framer's readiness being the stripper's backpressure: the book stays on its way through the messages the software parser outputs |
| RtlMoldTop.EveryRun | rtl/orderbook_top.sv:150-196 | so does every run, whenever beats are offered |
| RtlMoldTop.ComesToRest | rtl/orderbook_top.sv:150-196 | without input stripper and chip together always come to rest |
| RtlMoldTop.RestShows | rtl/orderbook_top.sv:150-196 | at rest the outputs are the banded book of the parser's output |
| RtlMoldTop.DatagramsToBook | rtl/orderbook_top.sv:150-196 | from reset, however the datagrams are cut into beats, the book at rest is that of the messages the software parser outputs for them |
| RefModel.RefBook.Apply | sim/reference_model.cpp:113-172 | one message in any state of the golden book; from an exact state it follows the message, and its levels stay exact if and only if an arrival is fresh and carries shares |
| RefModel.UpdatedHolds | sim/reference_model.cpp:113-172 | the same on values |
| RefModel.RepeatedArrivals | sim/reference_model.cpp:69-77 | an Add under a live reference, and one without shares, leave a wrong level |
| RefModel.RefBook.AddOrder | sim/reference_model.cpp:69-77 | levels stay exact if and only if the reference is not live and the size is positive |
| RefModel.RefBook.ReduceOrder | sim/reference_model.cpp:79-96 | clamped reduction in any state, nothing when the level is missing; exact levels and totals stay exact, empty levels vanish |
| RefModel.RefBook.RemoveOrder | sim/reference_model.cpp:98-111 | full removal in any state; exact levels and totals stay exact |
| RtlAgreement.SideShown | rtl/book_update_engine.sv:31-39 | for the same live orders every compared output equals the golden book's query |
| RtlAgreement.Compare | sim/reference_model.cpp:113-172 | hardware on the raw bytes and golden book on the filtered messages agree on every level, total, best price and live order, and these are the stream's; for every pinned or centred window and every cut |
| RtlAgreement.BandedShowsFiltered | tools/band_filter.py:5-16 | a banded book showing the raw stream agrees with the golden book of the filtered stream on every level, count, total and best price |
| MoldParser.Decap | sw/parser/mold_parser.hpp:51-96 | the nested walk loops compute the specified bytes and statistics |
| MoldCounts.DecapCounts | sw/parser/mold_parser.hpp:58-96 | the bytes returned are exactly `messages` blocks; every packet is applied, stale, cut short or ends the session, and adds one to one of these; a stale packet contributes nothing, a cut one its whole blocks |
| MoldCounts.WalkCounts | sw/parser/mold_parser.hpp:58-96 | from any statistics, every counter grows by its sum over the packets' fates, which are told without the statistics |
| MoldCounts.FatesAreBlocks | sw/parser/mold_parser.hpp:78-89 | the output is whole blocks, as many as the packets' fates say |
| MoldParser.WalkBlocks | sw/parser/mold_parser.hpp:78-89 | the block loop, with its truncation exits |
| MoldWrap.Split | tools/mold_wrap.cpp:66-74 | splits a stream into its whole blocks |
| MoldWrap.Wrap | tools/mold_wrap.cpp:76-87 | the packetising loop: dropped packets still advance the sequence |
| MoldWrap.ChunksFilled | tools/mold_wrap.cpp:76-87 | all packets but the last are full, and a packet is dropped exactly when its number is |
| MoldWrap.LossRoundTrip | sw/parser/mold_parser.hpp:61-96 | decapsulating a wrapped stream yields exactly the kept packets' messages; messages + gap_msgs = next_seq - first_seq; gap_msgs counts the messages lost between kept packets, gap_events the loss runs |
| MoldWrap.NothingDropped | tools/mold_wrap.cpp:76-87 | with nothing dropped the round trip is the identity on the messages |
| MoldWrap.BlocksAreTheStream | tools/mold_wrap.cpp:66-74 | the blocks are the stream's bytes up to where framing breaks off |
| MoldWrap.SequenceAccounted | sw/parser/mold_parser.hpp:26-29 | kept and lost messages together are the sequence numbers from first to last |
| MoldStripper.EveryEdge | rtl/mold_stripper.sv:146-221 | every edge, for every input and backpressure: the meaning of what was received never changes |
| MoldStripper.EveryCycle | rtl/mold_stripper.sv:146-221 | forwarded plus held is always the meaning of the beats accepted |
| MoldStripper.EveryRun | rtl/mold_stripper.sv:146-221 | so it is after every run |
| MoldStripper.SentBegins | rtl/mold_stripper.sv:104-107 | at any time, what went downstream begins the meaning of the beats accepted |
| MoldStripper.DrainedMeans | rtl/mold_stripper.sv:104-107 | once drained, bytes and telemetry are those of the beats |
| MoldStripper.Drains | rtl/mold_stripper.sv:122-132 | a ready consumer drains it in a bounded number of cycles |
| MoldStripper.Holds | rtl/mold_stripper.sv:122-132 | while the consumer is not ready the work left does not grow |
| MoldStripper.DatagramMeans | rtl/mold_stripper.sv:67-91 | a datagram means the same however it is cut into beats |
| MoldStripper.MoldStripper.Clock | rtl/mold_stripper.sv:146-221 | the clocked block computes the next registers |
| MoldStripper.MoldStripper.Merge | rtl/mold_stripper.sv:80-91 | the header merge loop |
| MoldStripper.MoldStripper.Policy | rtl/mold_stripper.sv:187-208 | the sequence policy |
| MoldAgreement.SameMessages | rtl/mold_stripper.sv:9-24 | for every run from reset, every cut of the datagrams into beats and every backpressure: the bytes forwarded begin the parser's output, and once drained are exactly it, with the same expected number, gap events and lost messages |
| MoldAgreement.RunAgrees | rtl/mold_stripper.sv:9-24 | the same from any faithful state |
| MoldAgreement.SameEnd | rtl/mold_stripper.sv:189-191 | the same runs up to and with the end-of-session packet: neither forwards its payload, both raise the flag |
| MoldAgreement.DecideAlike | sw/parser/mold_parser.hpp:72-92 | the two sequence policies decide alike on every header |
| StrategyProgram.Validate | sw/trade/program.cpp:166-273 | accepts exactly the programs whose slots fit and are disjoint, operands are in range, constants finite, and stack depth behaves |
| StrategyProgram.FiniteIsBelow | sw/trade/program.cpp:213-216 | a constant is finite exactly when its pattern without the sign lies below that of infinity |
| StrategyProgram.OperandRefused | sw/trade/program.cpp:221-252 | an operand is refused only when what the instruction reads or writes is not there |
| StrategyLaws.LimitsAccepted | sw/trade/program.cpp:195-273 | a program at every limit is accepted: full state, largest window, largest finite constant, last series and lag |
| StrategyLaws.InfiniteRefused | sw/trade/program.cpp:213-216 | an infinite constant or default is refused |
| StrategyLaws.BeyondLimitsRefused | sw/trade/program.cpp:195-212 | so is anything one step beyond a limit |
| StrategyLaws.StackCounts | sw/trade/program.cpp:71-136 | what an instruction needs and how it moves the depth fit together: it leaves one value, or none for stores, signals, sinks and the end |
| StrategyLaws.WordLaws | sw/trade/program.hpp:27-41 | assembling and disassembling an instruction word are inverse, for every operation and operand |
| StrategyLaws.CodesEnd | sw/trade/program.hpp:27-41 | codes from 50 on mean nothing, and every code below is some operation's |
| StrategyLaws.SlotKinds | sw/trade/program.hpp:46-53 | the numbers of the slot kinds |
| StrategyProgram.CheckSlots | sw/trade/program.cpp:196-211 | the occupancy loop decides fit and disjointness |
| StrategyProgram.CheckCode | sw/trade/program.cpp:219-273 | the depth loop decides operands, underflow, overflow, HALT placement and the declared maximum |
| StrategySemantics.StackFollowsDepth | sw/trade/program.cpp:222-268 | on every bar and input the stack height at each instruction is the validator's depth plus the skipped pops, and every operand is in range |
| StrategySemantics.NeverSkips | sw/trade/program.cpp:222-270 | without a repeated signal instruction the height is the depth and within 32 |
| StrategySemantics.RoomyStaysInside | sw/trade/program.cpp:222-270 | a program whose depth plus repeated signal instructions never passes 32, a test on the code alone, stays inside the stack on every bar |
| StrategySemantics.RepeatsAreSkips | sw/trade/dsl_vm.cpp:307-310 | when every signal fires, the height is depth plus repeats: then the test is exact |
| StrategySemantics.PlainIsRoomy | sw/trade/program.cpp:219-270 | accepted programs without a repeated signal instruction pass the test |
| StrategySemantics.EndsEmpty | sw/trade/program.cpp:269-270 | and the stack ends empty |
| StrategySemantics.RepeatedSignalOverflows | sw/trade/dsl_vm.cpp:307-310 | an accepted program that fires one signal repeatedly outgrows the stack: the short-circuit skips pops |
| StrategySemantics.RepeatingAccepted | sw/trade/program.cpp:219-275 | that program is accepted, with declared maximum 1 |
| StrategySemantics.ExecStays | sw/trade/dsl_vm.cpp:32-324 | an instruction writes only its own slot or local; counts stay whole numbers |
| StrategySemantics.SlotsApart | sw/trade/program.cpp:202-206 | distinct slots own distinct floats |
| StrategyVM.StrategyVM.Step | sw/trade/dsl_vm.cpp:18-326 | the interpreter loop on a 32-place stack computes the specified bar; it leaves the stack exactly when the heights say so, never when the depth leaves room for repeated signals |
| StrategyVM.StrategyVM.Execute | sw/trade/dsl_vm.cpp:36-323 | one instruction of the interpreter |
| StrategyVM.StrategyVM.SlotIns | sw/trade/dsl_vm.cpp:98-201 | indicator instructions update their slot in place |
| StrategyVM.StrategyVM.UpdateWindow | sw/trade/dsl_vm.cpp:156-201 | a value enters the ring and the window or the delayed value is read back |
| StrategyVM.StrategyVM.UpdateStrength | sw/trade/dsl_vm.cpp:112-130 | relative strength |
| StrategyVM.StrategyVM.RawIns | sw/trade/dsl_vm.cpp:202-273 | raw window instructions |
| StrategyVM.StrategyVM.ArithIns | sw/trade/dsl_vm.cpp:62-96 | arithmetic, comparison and logic |
| StrategyLaws.ArithLaws | sw/trade/dsl_vm.cpp:59-72 | sums, differences, products and quotients undo each other, a quotient by zero is zero, the smaller and larger of two values |
| StrategyLaws.ArithKeeps | sw/trade/dsl_vm.cpp:59-87 | operands give way to one result and nothing else changes |
| StrategyLaws.CompareLaws | sw/trade/dsl_vm.cpp:77-82 | comparisons agree with the sign of the difference |
| StrategyLaws.LogicLaws | sw/trade/dsl_vm.cpp:83-87 | zero is false, and De Morgan's law holds on the machine |
| StrategyLaws.UnaryLaws | sw/trade/dsl_vm.cpp:67-87 | negation, magnitude, guarded root and logarithm |
| StrategyLaws.RestKept | sw/trade/dsl_vm.cpp:36-323 | no instruction touches the stack below its operands |
| StrategyVM.StrategyVM.SinkIns | sw/trade/dsl_vm.cpp:307-321 | stores, signals with their short-circuit, and sinks |
| StrategyLaws.SinkLaws | sw/trade/dsl_vm.cpp:311-320 | a sink sets its own field and no other; a size outside 0 to 1 becomes the bound it passed |
| StrategyLaws.FireLaws | sw/trade/dsl_vm.cpp:307-310 | a signal is raised exactly by a non-zero value, and stays raised |
| StrategyLaws.UnsetSignals | sw/trade/dsl_vm.hpp:26-29 | a bar starts with nothing raised, no stops and full size, and what no instruction sets stays so |
| StrategyLaws.StoreLaws | sw/trade/dsl_vm.cpp:58 | a store moves the top of the stack to its local |
| StrategyVM.StrategyVM.PushIns | sw/trade/dsl_vm.cpp:37-60 | constant, parameter, series, context and local pushes |
| StrategyLaws.PushLaws | sw/trade/dsl_vm.cpp:37-57 | series are the bar's open, high, low, close and volume, a lag stops at the first bar, the context is in its order |
| StrategyVM.StrategyVM.Fold | sw/trade/dsl_vm.cpp:170-199 | the aggregate loops fold the window left to right |
| StrategyLaws.AggregateLaws | sw/trade/dsl_vm.cpp:170-187 | the mean times the length is the sum, the extremes are extreme |
| StrategyLaws.DeviationLaw | sw/trade/dsl_vm.cpp:188-199 | the deviation squared times the length is the sum of squared distances from the mean, where roots are exact |
| StrategyLaws.SumLaws | sw/trade/dsl_vm.cpp:170-176 | the sum is additive over concatenation |
| StrategyLaws.LengthLaws | sw/trade/dsl_vm.cpp:161-169 | a window is the longest that parameter, slot and bars so far allow |
| StrategyLaws.BackLaws | sw/trade/dsl_vm.cpp:265-289 | a delay reaches back as far as they allow |
| StrategyLaws.EmaLaw | sw/trade/dsl_vm.cpp:89-103 | over bars, EMA starts with its input and moves 2 / (n + 1) of the way |
| StrategyLaws.AtrLaw | sw/trade/dsl_vm.cpp:132-155 | over bars, ATR starts with the true range and moves 1 / n of the way |
| StrategyLaws.TrueRangeLaws | sw/trade/dsl_vm.cpp:136-146 | the true range is the widest of the bar's range and its distances from the last close |
| StrategyLaws.RsiLaw | sw/trade/dsl_vm.cpp:104-131 | over bars, RSI is 50 first, then follows averages of gains and losses that move 1 / n of the way; between 0 and 100, above 50 exactly when gains outweigh losses |
| StrategyLaws.CrossLaw | sw/trade/dsl_vm.cpp:291-306 | a crossing fires exactly when the values stand one way and met or stood the other way on the bar before |
| StrategyLaws.CountsBars | sw/trade/dsl_vm.cpp:89-201 | a slot counts the bars before |
| StrategyRuns.EveryBarIsRaw | sw/trade/dsl_vm.cpp:156-290 | on every bar of every run, the value a window or delay instruction pushes from its own ring, fed a lagged series, is the one its raw form computes, for every capacity, window and lag |
| StrategyRuns.RingHolds | sw/trade/dsl_vm.cpp:156-169 | at the start of every bar the ring holds the lagged series up to the bar before; no other instruction writes to it |
| StrategyRuns.KeptUntil | sw/trade/program.cpp:202-206 | instructions with other slots leave a slot as it is |
| StrategyRuns.SlotCarries | sw/trade/dsl_vm.cpp:98-201 | a slot comes to a bar's instruction as the bar before left it, zeros at first |
| StrategyRuns.Operands | sw/trade/dsl_vm.cpp:42-50 | after a lagged push and a plain push the instruction finds its value and window length |
| StrategyRuns.RunBars | sw/trade/dsl_vm.cpp:18-326 | stepping the interpreter bar by bar goes through exactly these machines, and never leaves the stack when the depth leaves room for repeated signals |
| StrategyWindows.EveryBarAgrees | sw/trade/dsl_vm.cpp:156-290 | a ring fed one lagged value a bar: ring and raw forms fold the same values in the same order; the delays read the same value |
| StrategyWindows.RingIsRaw | sw/trade/dsl_vm.cpp:156-257 | one bar of the same |
| StrategyWindows.DelayIsRaw | sw/trade/dsl_vm.cpp:258-290 | one bar of the delay |
| StrategyWindows.WindowOfPushed | sw/trade/dsl_vm.cpp:164-169 | the ring holds the last pushed values in order |
| StrategyWindows.ExtremeIsExtreme | sw/trade/dsl_vm.cpp:174-187 | HIGHEST and LOWEST return an extreme of the window |
| BandFilter.Commutes | tools/band_filter.py:66-85 | after every prefix of the stream the banded book on the raw messages has the orders of the unbanded book on the filtered ones, if and only if every in-window arrival that names a live reference repeats that very order; levels and best prices follow in RtlAgreement.BandedShowsFiltered |
| BandFilter.CommuteStep | tools/band_filter.py:66-85 | the same equivalence for one message, on any orders |
| BandFilter.FilterKeepsBanded | tools/band_filter.py:5-16 | to a banded book the raw and the filtered stream are the same, whatever references they reuse |
| BandFilter.VacantSettles | tools/band_filter.py:5-16 | filtered arrivals that reuse no live reference meet the condition |
| BandFilter.FreshSuits | tools/band_filter.py:5-16 | a feed that brings every reference in once suits the filter |
| BandFilter.FilterTwice | tools/band_filter.py:66-85 | a filtered stream passes the filter unchanged |
| BandFilter.WrappedWindowDiffers | tools/band_filter.py:64-68 | a window past the largest price: the tool drops an Add the hardware keeps |
| BandFilter.ReusedReferenceDiffers | rtl/book_update_engine.sv:308-330 | a reused live reference: the banded book keeps the first order, the unbanded one the second |
| BandFilter.FilteredNeverDrops | tools/band_filter.py:5-16 | on the filtered stream a banded book drops nothing |
| BandFilter.WindowsAgree | tools/band_filter.py:64-81 | the tool's window and the hardware's agree on every price if and only if the window ends within 32 bits |
| BandFilter.CentreInBand | tools/band_filter.py:62-64 | the centre lies in the window, half a window above its base unless the base is 0 |
| BandFilter.FilteredDropsNothing | tools/band_filter.py:2-3 | the hardware's drop counter stays at zero on a filtered stream |
| RtlPipeline.BandLies | rtl/book_update_engine.sv:203-212 | a window that centres itself holds the first Add, half a window above its base unless that is 0; a pinned one lies where it was pinned |
| RtlDrops.EveryEdge | rtl/book_update_engine.sv:286-293 | every edge keeps the drop counter at the number of finished messages the band turned away |
| BandFilter.InWindowUnbanded | rtl/book_update_engine.sv:203-220 | a stream inside the window needs no banding |
| BandFilter.FilterBytesFiltersMessages | tools/band_filter.py:68-85 | rewriting the bodies is rewriting the messages they deliver if and only if none is a Replace of another length priced outside the window; each such body adds a message |
| BandFilter.StrayRevives | tools/band_filter.py:75-83 | a 38-byte Replace that no book reads becomes a Delete that every book obeys |
| BandFilter.FileFiltersMessages | tools/band_filter.py:35-85 | bytes to bytes: a book reads from the tool's output the filtered messages of its input, under the same condition, when the input has no zero-length frame |
| BandFilter.PiecesAreFrames | tools/band_filter.py:32-40 | the tool and the framer split a stream alike if and only if it has no zero-length frame |
| BandFilter.EmptyFrameStops | rtl/itch_framer.sv:24-24 | a message behind a zero-length frame reaches the book but not the tool |
| BandFilter.Split | tools/band_filter.py:32-40 | the tool's splitting loop |
| BandFilter.FilterBodyMessages | tools/band_filter.py:75-83 | for any body the tool can read: its rewriting delivers the filtered message, if and only if it is no such Replace |
| BandFilter.RewrittenDelete | tools/band_filter.py:79-83 | a rewritten Replace decodes to the Delete of its original reference, with the same header |
| BandFilter.Rewrite | tools/band_filter.py:32-85 | the rewrite of a file, and how many bodies it kept, dropped and replaced by another; it fails exactly on a body too short for its price |
| Generator.ItchGenerator.Generate | sw/util/itch_gen.hpp:67-76 | for every random sequence: every message is accepted, with a free table slot for every erase, the book never crosses, the live set is the book's, references are new, arrivals carry shares, and the bytes decode to the messages |
| Generator.Replay | sw/book/order_book.hpp:259-281 | replaying the generated bytes through a new book with any hash: every message is applied and the book ends uncrossed with exactly the generator's live orders |
| Generator.BookUncrossed | sw/util/itch_gen.hpp:54-57 | every book's best bid is below its symbol's mid and its best ask above |
| Generator.GoodAtLarger | sw/book/order_ref_table.hpp:48-58 | a larger table changes no answer to a generated stream |
| Generator.ItchGenerator.Step | sw/util/itch_gen.hpp:98-117 | one step keeps all of this |
| Generator.ItchGenerator.EmitAdd | sw/util/itch_gen.hpp:158-178 | a new order on its side of the mid |
| Generator.ItchGenerator.EmitReplace | sw/util/itch_gen.hpp:264-281 | the replacement keeps side and symbol under a fresh reference |
| Generator.ItchGenerator.ExecAt | sw/util/itch_gen.hpp:219-239 | never over-executes |
| Generator.ItchGenerator.Reduce | sw/util/itch_gen.hpp:237-252 | a reduced order stays, an emptied one leaves the live set |
| Generator.ItchGenerator.FindTouch | sw/util/itch_gen.hpp:198-208 | the sweep's order has the best price of its side and symbol, and the lowest reference there |
| Generator.ItchGenerator.RandPrice | sw/util/itch_gen.hpp:123-134 | prices lie strictly on their side of the mid, within the limits |
| Generator.NeverCrossed | sw/util/itch_gen.hpp:54-57 | every bid is below the mid and every ask above it |
| Generator.AddAccepted | sw/book/order_book.hpp:306-326 | the book accepts every emitted Add |
| Generator.ReplaceAccepted | sw/book/order_book.hpp:368-398 | the book accepts every emitted Replace |
| Generator.ReduceAccepted | sw/book/order_book.hpp:328-366 | the book accepts every emitted reduction and delete |
| Generator.GoodIsFresh | sw/util/itch_gen.hpp:10-14 | every reference is new and every arrival carries shares |
| SpscQueue.EveryStep | sw/util/spsc_queue.hpp:25-41 | every step of every interleaving keeps the ring consistent, across index wraparound |
| SpscQueue.EveryInterleaving | sw/util/spsc_queue.hpp:25-41 | so does every run |
| SpscQueue.PoppedIsPrefix | sw/util/spsc_queue.hpp:25-46 | popped values are a prefix of pushed ones; occupancy is within the capacity and is what size() computes |
| SpscQueue.NoOverwrite | sw/util/spsc_queue.hpp:29-38 | no unread slot is written, and the two threads never touch the same slot |
| SpscQueue.RefusedExactly | sw/util/spsc_queue.hpp:28-37 | a push fails exactly on a full ring, a pop exactly on an empty one, at the moment of the load |
| SpscQueue.SPSCQueue.Enqueue | sw/util/spsc_queue.hpp:25-32 | an uninterrupted push is the producer's four steps |
| SpscQueue.SPSCQueue.Dequeue | sw/util/spsc_queue.hpp:34-41 | an uninterrupted pop is the consumer's four steps |

## Left out

- OrderBook.OrderBook.Add: level arrays are sequence-valued fields, so aliasing of array storage is not modelled.
- BookEngine.BookEngine.Apply: event counters, scan statistics and the top-n volume sums are left out; they are running sums.
- OrderRefTable.OrderRefTable.Insert: the hash is an arbitrary function and the power-of-two mask a remainder; probe statistics are left out.
- OrderRefTable.OrderRefTable.Erase: requires a free slot when the key is present, because on a full table the loop never ends.
- FillEngine.FillEngine.SubmitLimit: references, sequence numbers and queue positions are unbounded; Session.PositionFits shows positions fit 64 bits.
- Session.RunSession: the messages are given decoded; the order manager, bar builder and reports around the loop are left out; float money, easy sums and I/O.
- ReferenceBook.ReferenceBook.Apply: price maps are keyed by whole numbers; book states after a harmful message are not followed.
- RefModel.RefBook.Apply: level shares and totals are unbounded integers, the source's wrap at 64 bits; VWAP sums and trade counts are left out.
- RtlBookClass.BookUpdateEngine.Clock: band configuration pulses during traffic, trade outputs and probe telemetry are left out; a band pinned before traffic is a constructor argument.
- RtlBookTheorems.EveryEdge: order timestamps play no part in the book.
- RtlDrops.EveryEdge: the drop counter is unbounded, the hardware's is 32 bits wide.
- RtlPipeline.OrderBookTop.Play: udp_stripper is not part of this model; the MoldUDP64 stripper is put in front in RtlMoldTop.
- RtlMoldTop.DatagramsToBook: datagrams hold exactly the blocks they announce and none ends the session; MoldAgreement.SameEnd has the end-of-session packet.
- MoldStripper.MoldStripper.Clock: the bypass with mold_mode low is left out; it is a wire.
- MoldAgreement.SameMessages: agreement of the event counters is modulo 2^32, the width of the hardware's.
- MoldParser.Decap: counters other than sequence numbers and gap_msgs are unbounded.
- StrategyProgram.Validate: the bounds-checked reader that cuts the file into its sections is left out.
- StrategyVM.StrategyVM.Step: values are real numbers and the float functions arbitrary, so rounding, NaN and float-to-int overflow are not modelled.
- StrategyRuns.EveryBarIsRaw: whole counts are exact, as the float count is below 2^24 bars; the bar series is given whole, bar t reading only up to t.
- BandFilter.Rewrite: the median that picks the centre, the search for a first Add, and the file handling are left out.
- Wire.DecodeEncode: the decoder reduces a side byte other than B or S to a sell; the software parser keeps it and the book rejects it, which is modelled in BookEngine only.
- Generator.ItchGenerator.Generate: one call on a new generator; requires symbol mids far enough inside the price limits and room in the book for n orders.
- SpscQueue.EveryStep: steps are sequentially consistent; weak memory ordering is left out.
- Receivers, affinity, timing, latency histograms, UART and clocking: I/O, operating system and electrical concerns.
