# Verification of the systems-programming assignments

This project models the concurrent and algorithmic cores of the repository and proves what they
promise. Every module stands beside one part of the source:

- **HW3, the letter-sorting building.** `Letters` and `WordSlots` define one shared word: its slots,
  its letter tasks, the sorter's pass and the progress measure. `SortingProc`, `FindTask`,
  `WordCarrier` and `Elevator` are the loops over arrays, proved against those definitions.
  `Building` is the whole building as processes that take and leave mutexes one step at a time;
  `BuildingSafety`, `BuildingLedger`, `BuildingRuns` and `BuildingTasks` prove what every
  interleaving keeps, the bound on sorting passes, and that no circular wait arises;
  `BuildingChoices` says of each deciding step of a run when it goes which way. `ElevatorRuns`
  adds riders, semaphore tokens and the service bound. A flag read without its mutex may be stale,
  so such a step may act on any earlier value.
- **HW4, the log pipeline.** `ReaderRanges` proves when a parallel read equals a sequential one,
  `Ring` the circular queues, `Pipeline*` the EOF protocol, delivery and deadlock freedom for one
  reader process, `LogFile` the way from the bytes of a file to the workers, `DispatcherLoop` the
  dispatcher's loop, `EofOrder`, `ManyReaders` and `ManyReadersDelivery` what its EOF test means
  with several readers, `Tallies`, `Analyzer` and `MergeOrder` the scores, and `FileScore` a level's
  result as a function of the file alone.
- **HW5, the courier service.** `OrderHeap` is the binary heap in place, `CourierThread` the loops of
  a courier and of the cancellation, `Shift` a whole shift with couriers, main thread and a SIGINT
  at any moment.
- **HW6 and Final, the servers.** `LineFraming` is the line buffer under reads of any size, `Book` the
  tables with swap-removal, `Cauldron*` and `FullSpellbook` stock and spellbooks, `Portfolio*`
  prices and portfolios, `Slots` the row of connections of both.
- **HW1 and HW2.** `Regex` proves both matchers against the language of the pattern; `TreePrint` proves
  that a printed tree can be read back.

Main results in one line each: a delivered word of n letters is rebuilt after at most 2n passes
under any interleaving; every requested floor is served within 2n - 1 iterations; the parallel read
equals the sequential read exactly when the cuts are clean; every entry of a file is processed
exactly as often as it stands there, so a level's merged total is the file's score; a shift serves
the input in priority order and accounts for all of it; stock, spellbooks and shares are conserved
over whole runs; both matchers decide their language.

Results where the code does not do what one would expect, each with its exact condition and an input
that shows it: a line longer than the 1023-byte read can be lost at a cut
(`ReaderRanges.ParallelIffCutsAtBuffers`, `ReaderRanges.LongLineIsLost`); with several readers an
entry can end up behind its level's EOF, unprocessed (`ManyReaders.EofLastIffRegionAClear`,
`ManyReadersDelivery.ProcessedIffRegionAClear`, `ManyReaders.SecondReaderOvertaken`); a brew into a
full spellbook is lost to the wizard (`Cauldron.ConsumeUndoesBrew`,
`FullSpellbook.SixtyFifthBrewIsLost`); the tree drops names beyond its buffers
(`TreePrint.NothingIsLost`, `TreePrint.DeepPathIsLost`); the price floor breaks a round trip only
below a cent (`PortfolioRuns.BuyThenSellRestores`, `PortfolioRuns.SubCentStockEndsAtCent`).

With several workers a level's stored top three need not be its true top three
(`MergeOrder.EvictedSourceIsLost`); they are exact while no more than three sources have hits
(`MergeOrder.FewSourcesAreExact`), and never overstated (`MergeOrder.TopSourcesNeverOverstated`).

Conventions: counters are unbounded integers, HW4 scores are integers, Final prices are reals.
`char` is signed on the platforms the matchers are written for, so a byte of 128 or more never
matches. The order of bytes, lines, requests and signals is arbitrary: theorems range over all runs.

## Model

| member | source | states |
|---|---|---|
| WordSlots.DeliveryFindsRoom | HW3/src/processes/letter_carrier.c:44-53 | in a sound word an undelivered letter always finds a free slot, so the error branch of the placement is dead |
| WordSlots.LooseLetterHasSlot | HW3/src/processes/sorting_proc.c:7-32 | the search for the correct slot never fails on an occupied, unfixed slot, repeated letters included (a counting argument over the letters placed, fixed and still to come) |
| WordSlots.ChoiceIsBest | HW3/src/processes/sorting_proc.c:7-32 | the slot chosen is the letter's own if it belongs there, else one that wants the letter and is not fixed: an empty one whenever there is one, and the first of its kind; -1 only if none wants it |
| WordSlots.RoundFixes | HW3/src/processes/sorting_proc.c:44-57 | a round leaves an empty or fixed slot alone and fixes a letter that stands where it belongs |
| WordSlots.RoundMoves | HW3/src/processes/sorting_proc.c:58-76 | a loose letter that belongs elsewhere goes to its slot; what stood there comes back in exchange, or the slot left shows nothing; no other slot changes |
| WordSlots.FreshIsSound | HW3/src/shared_memory/shm_init_utils.c:23-49 | a freshly initialised word satisfies the soundness invariant |
| WordSlots.ClaimKeepsSound | HW3/src/processes/letter_carrier.c:25-33 | claiming a task keeps a word sound |
| WordSlots.PlaceKeepsSound | HW3/src/processes/letter_carrier.c:44-54 | placing an undelivered letter keeps a word sound and marks exactly that task delivered |
| WordSlots.SortSlotKeepsLetters | HW3/src/processes/sorting_proc.c:44-77 | one round of the pass (fix, move or swap) keeps, letter by letter, the number of letters standing in the slots |
| WordSlots.SortSlotsKeepSorting | HW3/src/processes/sorting_proc.c:44-77 | every prefix of a pass keeps the sorting invariant |
| WordSlots.PassKeepsSound | HW3/src/processes/sorting_proc.c:44-97 | a whole pass, with its completion test, keeps a word sound and leaves the task marks alone |
| WordSlots.PassRaisesScore | HW3/src/processes/sorting_proc.c:44-97 | a pass over a word with an occupied, unfixed slot strictly raises the number of correctly placed letters plus fixed slots |
| WordSlots.ScoreBound | HW3/src/processes/sorting_proc.c:44-97 | that score is never more than twice the word length |
| WordSlots.ActedIffLoose | HW3/src/processes/sorting_proc.c:37-77 | a pass reports a change exactly when some occupied slot was not yet fixed |
| WordSlots.DeliveredWordHasLooseLetter | HW3/src/processes/sorting_proc.c:79-87 | a fully delivered word that is not completed has an occupied, unfixed slot for the next pass to work on |
| WordSlots.CompletedWordIsRebuilt | HW3/src/processes/sorting_proc.c:79-88 | a completed word has every slot filled with its original letter |
| SortingProc.SharedWord.FindCorrectSlot | HW3/src/processes/sorting_proc.c:7-32 | the loop returns the first empty, else the first swappable, candidate as the specification defines it |
| SortingProc.SharedWord.SortRound | HW3/src/processes/sorting_proc.c:44-77 | the in-place round has exactly the specified effect on the four arrays, and acts only on an occupied, unfixed slot with a destination |
| SortingProc.SharedWord.SortStep | HW3/src/processes/sorting_proc.c:34-101 | the in-place pass runs under its guards only, equals the specified pass, reports a change faithfully, and lowers the floor count and raises the done count exactly when it completes the word |
| SortingProc.SharedWord.AllSet | HW3/src/processes/sorting_proc.c:79-85 | the scans with early exit decide whether every mark is set |
| SortingProc.SharedWord.ClaimTask | HW3/src/processes/letter_carrier.c:25-33 | the critical section claims the task only if it is neither claimed nor delivered, and says whether it did |
| SortingProc.SharedWord.PlaceChar | HW3/src/processes/letter_carrier.c:39-62 | the letter goes into the first free slot; on a sound word the error result never occurs |
| FindTask.TaskTable.Find | HW3/src/processes/letter_carrier.c:7-37 | the first waiting letter of the floor in table order is claimed and nothing else changes; failure means no letter waits there |
| FindTask.TaskTable.FindIn | HW3/src/processes/letter_carrier.c:19-24 | within a word the first waiting letter is found, or none waits |
| FindTask.TaskTable.Search | HW3/src/processes/letter_carrier.c:11-35 | the scan over all words stops at the first waiting letter |
| WordCarrier.Words.RrPick | HW3/src/processes/word_carrier.c:8-24 | the index moves on by one round the table and the first available word from the old index on is returned, or -1 |
| WordCarrier.Words.TryAdmit | HW3/src/processes/word_carrier.c:26-54 | the word is admitted exactly when the floor it arrives on and the floor it is sorted on are both below the limit; each then counts one more, or one floor two, and no other floor changes |
| WordCarrier.Words.SetSources | HW3/src/processes/word_carrier.c:89-90 | every letter of the word now starts from the carrier's floor, no other word is touched |
| WordCarrier.Words.Turn | HW3/src/processes/word_carrier.c:71-110 | a turn either picks nothing, or admits the picked word, exactly when both floors are below the limit, on both floors with its arrival and source floors, or restores the claim and counts a retry |
| WordCarrier.PickFailsIffNone | HW3/src/processes/word_carrier.c:18-23 | a pick fails exactly when every word is claimed or admitted, wherever it starts |
| WordCarrier.PickTakesStart | HW3/src/processes/word_carrier.c:14-21 | a pick that starts at an available word returns that word |
| WordCarrier.PickIsFirst | HW3/src/processes/word_carrier.c:14-23 | the word picked is the first available one from the start on and round |
| WordCarrier.EveryWordHasItsTurn | HW3/src/processes/word_carrier.c:13-16 | from any index, within as many picks as there are words, some pick starts at any given word |
| BuildingSafety.StepKeepsWellformed | HW3/src/processes/letter_carrier.c:157-193 | every step of every process keeps words sound, sizes right and program points in order |
| BuildingSafety.StepKeepsExclusive | HW3/src/processes/word_carrier.c:30-51 | no step makes two processes hold the same mutex |
| BuildingSafety.StepKeepsOwners | HW3/src/processes/word_carrier.c:76-101 | a word is claimed and not yet admitted exactly while one carrier owns it |
| BuildingSafety.StepKeepsJobs | HW3/src/processes/letter_carrier.c:25-33 | a letter is claimed and not yet delivered exactly while one letter carrier has it |
| BuildingSafety.FlagsChangeByOwner | HW3/src/processes/word_carrier.c:76-101 | claimed, admitted and arrival flags change only at the hands of the word's owner |
| BuildingSafety.MarksChangeByCarrier | HW3/src/processes/letter_carrier.c:19-54 | task marks change only when a carrier wins a task or delivers the one it has |
| BuildingSafety.StepEvolvesWords | HW3/src/processes/sorting_proc.c:44-97 | no step takes back a claim, delivery, admission, fixed slot or completion |
| BuildingLedger.StepKeepsBalanced | HW3/src/processes/word_carrier.c:33-52 | a floor's count stays equal to the shares of its admitted words, up to updates in progress; likewise the done and admitted counters |
| BuildingLedger.StepKeepsBounded | HW3/src/processes/word_carrier.c:33-49 | a floor's count never passes the limit by more than one, and only after a same-floor admission |
| BuildingRuns.InitIsSafe | HW3/src/shared_memory/shm_init_utils.c:7-59 | the initial shared memory satisfies the invariant |
| BuildingRuns.StepKeepsInv | HW3/src/processes/sorting_proc.c:34-101 | every interleaved step, and the shutdown flag raised at any time, keeps the invariant |
| BuildingRuns.RunIsSafe | HW3/src/processes/sorting_proc.c:103-116 | every state of every run satisfies the invariant |
| BuildingRuns.FixedForGood | HW3/src/processes/sorting_proc.c:54-56 | a slot once fixed stays fixed to the end of the run and holds its original letter |
| BuildingRuns.SlotsHoldDeliveredLetters | HW3/src/processes/letter_carrier.c:49-53 | in every state of every run the letters in a word's slots are, count by count, the letters delivered |
| BuildingRuns.CompletedWordReadsOriginal | HW3/src/processes/sorting_proc.c:87-88 | in every run a completed word reads as it did in the input, was admitted and had every letter delivered |
| BuildingRuns.DeliveryNeverFails | HW3/src/processes/letter_carrier.c:44-61 | in every run a carrier about to place a letter is the only one with that task, and finds a free slot |
| BuildingRuns.SearchNeverFails | HW3/src/processes/sorting_proc.c:48-52 | in every run no round of a pass finds its search for a correct slot failing |
| BuildingRuns.StepNeverLowersScore | HW3/src/processes/sorting_proc.c:44-77 | no step of any process lowers a word's score; a pass over a loose letter raises it |
| BuildingRuns.PassesRaiseScore | HW3/src/processes/sorting_proc.c:44-97 | after delivery the score is at least the number of passes executed, until completion |
| BuildingRuns.DeliveredWordCompletes | HW3/src/processes/sorting_proc.c:44-97 | a delivered word of n letters is completed, reading as the original, after at most 2n executed passes, whatever else runs in between |
| BuildingRuns.CountersAreExact | HW3/src/processes/sorting_proc.c:87-94 | done_count and admitted_count plus their pending increments equal the numbers of completed and admitted words |
| BuildingRuns.FloorsStayBounded | HW3/src/processes/word_carrier.c:33-49 | in every run a floor's count lies between 0 and the limit plus one, passes the limit only after a same-floor admission, and equals the shares of its words |
| BuildingRuns.AdmittedOnce | HW3/src/processes/word_carrier.c:87-95 | whoever marks a word admitted finds it unmarked and is its only owner, so each word is admitted at most once |
| BuildingTasks.ClaimedAndPlacedOnce | HW3/src/processes/letter_carrier.c:25-53 | in every run each letter's claim is won at most once and the letter placed at most once, and the task marks say exactly which has happened |
| BuildingChoices.LeavesIffAllAdmitted | HW3/src/processes/word_carrier.c:65-69 | in every run a word carrier leaves at its check exactly when every word counts as admitted |
| BuildingChoices.WordIsWonIffFree | HW3/src/processes/word_carrier.c:76-82 | in every run a carrier wins a word exactly when it is neither claimed nor admitted |
| BuildingChoices.AdmitsIffRoom | HW3/src/processes/word_carrier.c:33-51 | in every run a carrier that holds the floor mutexes admits its word exactly when both counts are below the limit; then one place more is taken on each floor, or two on one, and on no other |
| BuildingChoices.AdmissionIsRecorded | HW3/src/processes/word_carrier.c:87-88 | an admitted word takes the carrier's floor as its arrival floor and is then marked admitted |
| BuildingChoices.SourcesAreSet | HW3/src/processes/word_carrier.c:89-90 | the letters of an admitted word are given that floor as their source, one after the other, until all have it |
| BuildingChoices.RejectedWordIsFreed | HW3/src/processes/word_carrier.c:100-105 | a word that is not admitted becomes claimable again |
| BuildingChoices.LetterIsWonIffFree | HW3/src/processes/letter_carrier.c:25-33 | in every run a letter is won exactly when it is neither claimed nor delivered; the winner places it at once on the sorting floor or rides there |
| BuildingChoices.RideEndsAtWord | HW3/src/processes/letter_carrier.c:188-192 | a ride with a letter ends on the floor of its destination, at the letter's word |
| BuildingChoices.PlacementShowsLetter | HW3/src/processes/letter_carrier.c:44-54 | in every run a placement shows the letter in the first slot neither occupied nor fixed, marks it delivered and changes nothing else |
| BuildingChoices.CompletesIffAllFixed | HW3/src/processes/sorting_proc.c:79-97 | in every run a pass leads on to the counters exactly when it leaves every slot of an uncompleted word fixed |
| BuildingChoices.DoneWordLeavesFloor | HW3/src/processes/sorting_proc.c:87-91 | a completed word takes one place off its floor and off no other |
| BuildingChoices.DoneWordIsCounted | HW3/src/processes/sorting_proc.c:92-94 | and then adds one to the words done |
| BuildingChoices.LetterMayBeTaken | HW3/src/processes/letter_carrier.c:11-24 | an idle letter carrier may take up any letter of an admitted word that starts from its floor |
| BuildingChoices.OnlyLettersOfTheFloorAreTaken | HW3/src/processes/letter_carrier.c:11-24 | and in no run is any other letter taken up |
| BuildingChoices.WordMayBeSorted | HW3/src/processes/sorting_proc.c:39-42 | an idle sorter may try any admitted word sorted on its floor, and pass over it when its mutex is free |
| BuildingChoices.OnlyWordsOfTheFloorAreTried | HW3/src/processes/sorting_proc.c:39-42 | and in no run does a sorter try a word not admitted or sorted elsewhere |
| BuildingChoices.VacantSlotsShowNothing | HW3/src/processes/sorting_proc.c:58-66 | in every state of every run a slot that holds no letter shows none |
| BuildingRuns.WaitsUpwards | HW3/src/processes/word_carrier.c:28-51 | nested mutexes are always taken in the order word, floor by ascending index, done |
| BuildingRuns.WaiterSteps | HW3/src/processes/word_carrier.c:41-51 | a process waiting for a free mutex can take it |
| BuildingRuns.HolderSteps | HW3/src/processes/sorting_proc.c:87-99 | a process that holds a mutex and waits for none can go on |
| BuildingRuns.NoCircularWait | HW3/src/processes/sorting_proc.c:41-99 | in every reachable state in which a process is blocked on a mutex, some process that holds one can take a step |
| Elevator.Shaft.HasRequestInDirection | HW3/src/processes/elevator.c:5-13 | the scan decides whether a request lies ahead in the direction of travel |
| Elevator.Shaft.AnyRequest | HW3/src/processes/elevator.c:15-20 | the scan decides whether any request is outstanding |
| Elevator.Shaft.TurnToRequest | HW3/src/processes/elevator.c:33-41 | an empty car with nothing ahead turns toward the lowest requested floor, otherwise keeps its direction |
| Elevator.Shaft.RunOnce | HW3/src/processes/elevator.c:31-57 | one iteration of the loop has the specified effect and keeps the car in the shaft |
| Elevator.CarFaces | HW3/src/processes/elevator.c:33-41 | a loaded car keeps its direction; an empty one with nothing ahead goes up exactly when every requested floor is above it |
| Elevator.CarMoves | HW3/src/processes/elevator.c:43-50 | the car moves one floor that way or stays at the end of the shaft, and clears the requests of that floor and of no other |
| Elevator.CarTurns | HW3/src/processes/elevator.c:44-55 | the end of the shaft turns any car; otherwise an empty car turns exactly when no request is left ahead |
| Elevator.LoadedCarApproaches | HW3/src/processes/elevator.c:43-55 | an iteration of a loaded car either serves floor d or comes one nearer to it along the sweep |
| Elevator.DistanceBound | HW3/src/processes/elevator.c:43-55 | the sweep distance to any floor lies between 1 and 2n - 1 for n floors |
| Elevator.EmptyCarFacesRequest | HW3/src/processes/elevator.c:33-41 | an empty car over an unrequested floor turns to where a request is, if there is one |
| Elevator.EmptyCarEndsFacing | HW3/src/processes/elevator.c:53-55 | an empty car ends every iteration facing a request, as long as one is outstanding |
| ElevatorRuns.RunKeepsInv | HW3/src/processes/elevator.c:27-63 | every state of every run of riders and elevator keeps the load count and the wake-up invariant |
| ElevatorRuns.NoLostWakeup | HW3/src/processes/elevator.c:59-60 | before shutdown an outstanding request always has a semaphore token, an iteration in progress, or a requester about to post |
| ElevatorRuns.LoadIsExact | HW3/src/processes/letter_carrier.c:64-106 | the load always equals the number of riders counted aboard and never passes the capacity |
| ElevatorRuns.BoardsIffRoom | HW3/src/processes/letter_carrier.c:64-75 | in every run a rider gets aboard exactly when the load is below the capacity |
| ElevatorRuns.LeavesIffServed | HW3/src/processes/letter_carrier.c:90-106 | in every run a rider aboard rings for its floor, gets ready to leave exactly when it finds the car there with the request served, and then lowers the load |
| ElevatorRuns.WaitingRunsDown | HW3/src/processes/elevator.c:43-55 | while a rider waits, each iteration either has served its floor or shortens the remaining distance by one |
| ElevatorRuns.RunKeepsRequested | HW3/src/processes/letter_carrier.c:86-106 | before shutdown, in every state of every run, behind each outstanding request stands a rider that made it and has not left |
| ElevatorRuns.RequestRunsDown | HW3/src/processes/elevator.c:31-57 | from any outstanding request on, each iteration either has served the floor or shortens the remaining distance by one |
| ElevatorRuns.ServedInTime | HW3/src/processes/elevator.c:43-57 | every requested floor, whoever asked for it, is served within 2n - 1 iterations |
| ReaderRanges.Stream.Gets | HW4/src/utils/reader_thread_fun.c:36-38 | a buffered line read takes at least a byte and at most 1023, holds no newline before its end, and ends in one unless it is full or the file ends |
| ReaderRanges.FindLineStart | HW4/src/processes/reader.c:14-28 | the scan ends at the first line start at or after the position |
| ReaderRanges.LineStartIsFirst | HW4/src/processes/reader.c:14-28 | from a position on, the first line start or the end of the file is found, with no newline passed over |
| ReaderRanges.ReadRange | HW4/src/utils/reader_thread_fun.c:33-53 | a thread reads the successive lines that begin in its range, from its first line start on |
| ReaderRanges.SetRanges | HW4/src/processes/reader.c:86-99 | each thread gets the range of the specification: its chunk, capped by the file size, the last one reaching the end |
| ReaderRanges.RangesTile | HW4/src/processes/reader.c:86-99 | the ranges lie end to end from 0 to the file size, in the smallest equal chunks that reach it |
| ReaderRanges.RunReader | HW4/src/processes/reader.c:86-137 | what the threads read, joined in thread order, is the parallel read of the specification |
| ReaderRanges.ReadsMeetLineStarts | HW4/src/utils/reader_thread_fun.c:33-42 | the sequential reader passes through every line start, however long the lines |
| ReaderRanges.ParallelIffCleanCuts | HW4/src/processes/reader.c:86-99 | for any file and any number of threads the parallel read equals the sequential read exactly when no read begins between a cut and the next line start |
| ReaderRanges.CleanByGeometry | HW4/src/utils/reader_thread_fun.c:33-42 | a cut is clean exactly when it begins a line or lies in the last buffer of its line, which the newline positions alone decide |
| ReaderRanges.ParallelIffCutsAtBuffers | HW4/src/processes/reader.c:86-99 | for any file and any number of threads the parallel read equals the sequential read exactly when every cut begins a line or lies in the last buffer of its line |
| ReaderRanges.ParallelEqualsSequential | HW4/src/processes/reader.c:86-99 | with lines of at most 1023 bytes the parallel read equals the sequential read for every number of threads |
| ReaderRanges.SequentialReadIsFile | HW4/src/utils/reader_thread_fun.c:36-42 | the reads of the whole file, joined, are the file |
| ReaderRanges.ReadsAreLines | HW4/src/utils/reader_thread_fun.c:36-39 | no read spans two lines; with short lines every read but the last is one whole line |
| ReaderRanges.LongLineIsLost | HW4/src/utils/reader_thread_fun.c:33-42 | a line of twice the buffer, cut in its middle, loses its second half under two threads |
| LogFile.ReaderThread | HW4/src/utils/reader_thread_fun.c:33-53 | the entries pushed are, in order, what the parser makes of the reads it accepts, each read taken up to its first CR, LF or NUL; every other read is blank or refused, and malformed counts the refused ones |
| LogFile.ParsedSelects | HW4/src/utils/reader_thread_fun.c:36-52 | for any list of reads there are increasing positions at which they parse to the entries pushed, and all reads elsewhere are blank or refused by the parser |
| LogFile.CopiesAreReads | HW4/src/utils/reader_thread_fun.c:36-52 | an entry is pushed as often as there are reads that parse to it |
| LogFile.ParsedJoin | HW4/src/utils/reader_thread_fun.c:36-52 | the entries of joined lists of lines are the joined entries |
| LogFile.FileIsProcessed | HW4/src/processes/analyzer.c:140-180 | end to end: with clean cuts, a finished run of the pipeline has processed every entry exactly as often as there are reads of the file, by a single reader, that parse to it |
| Ring.Ring.Push | HW4/src/shm/shm_queue.c:6-13 | a push refuses a full ring and otherwise appends to the abstract queue |
| Ring.Ring.Pop | HW4/src/shm/shm_queue.c:15-22 | a pop refuses an empty ring and otherwise takes the oldest entry |
| Ring.InternalBuffer.Push | HW4/src/utils/internal_buffer.c:43-55 | a push into a buffer with room appends the entry |
| Ring.InternalBuffer.Pop | HW4/src/utils/internal_buffer.c:57-75 | a pop takes the oldest entry; the end is reported only when the buffer is empty and done |
| Ring.InternalBuffer.ReaderDone | HW4/src/utils/internal_buffer.c:77-86 | the last reader to finish, and no other, marks the buffer done |
| PipelineSafety.StepKeepsInv | HW4/src/processes/dispatcher.c:81-145 | every step of readers, parser, dispatcher and workers keeps the EOF protocol invariant |
| PipelineSafety.StepConserves | HW4/src/processes/dispatcher.c:108-144 | no step creates, drops or duplicates an entry of a valid level |
| PipelineSafety.RunIsSafe | HW4/src/utils/reader_thread_fun.c:69-102 | in every state of every run the copies of an entry along the pipeline equal the copies read |
| PipelineSafety.NeverProcessedTwice | HW4/src/processes/analyzer.c:140-180 | no entry is ever processed more often than it was read |
| PipelineSafety.EveryEntryProcessed | HW4/src/processes/analyzer.c:156-166 | when all workers of a level have left, each of its entries has been processed exactly as often as it was read |
| PipelineSafety.ProcessedByOwnLevel | HW4/src/processes/dispatcher.c:129-144 | entries are processed only by workers of their own level |
| PipelineSafety.OneEofPerLevel | HW4/src/processes/dispatcher.c:112-153 | each level gets exactly one EOF by the time the dispatcher is done, and never a forced one |
| PipelineProgress.StepUsesWork | HW4/src/utils/reader_thread_fun.c:69-102 | every step lowers one measure of the work left |
| PipelineProgress.RunsEnd | HW4/src/processes/dispatcher.c:81-153 | no run is longer than the initial work |
| PipelineProgress.NeverStuck | HW4/src/processes/analyzer.c:140-180 | as long as anything is unfinished some process can step: the bounded queues never deadlock |
| PipelineProgress.MaximalRunDelivers | HW4/src/processes/dispatcher.c:81-153 | a run that cannot be extended has processed every entry it read |
| DispatcherLoop.Loop.SendEof | HW4/src/processes/dispatcher.c:19-31 | the level's queue gets one EOF and its flag is raised |
| DispatcherLoop.Loop.Handle | HW4/src/processes/dispatcher.c:112-144 | one round sends the entry to its level's queue, or for a marker one EOF if the level has had none and its markers are all in, and nothing to any other level |
| DispatcherLoop.Loop.Finish | HW4/src/processes/dispatcher.c:147-153 | after the loop exactly the levels without an EOF get one |
| DispatcherLoop.RoundIsSteps | HW4/src/processes/dispatcher.c:108-144 | with room in the level queues a round of the loop is at most three steps of the interleaved dispatcher |
| DispatcherLoop.FinishIsSteps | HW4/src/processes/dispatcher.c:147-153 | with room in the queues, the work after the loop is a run of the interleaved dispatcher's steps to its end |
| EofOrder.EofLastIffEntriesFirst | HW4/src/processes/dispatcher.c:112-144 | handling a queue with all its markers counted, on a level queue without an EOF, leaves the EOF last exactly when the queue holds no entry of the level behind a marker of it |
| ManyReaders.NetRunIsSafe | HW4/src/processes/dispatcher.c:81-145 | for any number of readers, in every state of every run each entry is unpushed, in region A, in the dispatcher's hand or sent to its level, as often as it was read |
| ManyReaders.TestMeansAllPushed | HW4/src/processes/dispatcher.c:117-119 | when the EOF test of a level passes every parser has pushed all its entries, and the level has had no EOF |
| ManyReaders.EofLastIffRegionAClear | HW4/src/processes/dispatcher.c:117-121 | for any number of readers, all entries of a level go out ahead of its EOF exactly when region A holds none of the level as the test passes |
| ManyReaders.SecondReaderOvertaken | HW4/src/processes/dispatcher.c:117-121 | a run of two readers in which any given entry is queued behind the EOF after the level's only worker has left |
| ManyReadersDelivery.RunKeepsFlow | HW4/src/processes/dispatcher.c:81-145 | for any number of readers, every state of every run has in region B the untaken end of what was sent, at most one EOF per level, and no worker gone before that EOF was taken |
| ManyReadersDelivery.ClearMeansProcessed | HW4/src/processes/analyzer.c:140-180 | with region A clear of a level when its test passes, workers of the level that have all left have processed each entry of it exactly as often as it was read |
| ManyReadersDelivery.ProcessedIffRegionAClear | HW4/src/processes/analyzer.c:140-180 | with one worker for the level, and that worker gone, each entry of the level was processed exactly as often as read if and only if region A was clear of the level when its test passed |
| Analyzer.CountKeyword | HW4/src/processes/analyzer.c:21-33 | the loop counts the positions at which the keyword begins, overlaps included, none for an empty keyword |
| Analyzer.GetLevelWeight | HW4/src/processes/analyzer.c:13-19 | the weight is 4, 3, 2, 1 for the four levels and 0 otherwise |
| Tallies.OccurrencesArePositions | HW4/src/processes/analyzer.c:27-31 | the count equals the number of positions at which a non-empty keyword begins |
| Tallies.ScoreCountsPositions | HW4/src/processes/analyzer.c:168-179 | a score is the level's weight times the number of places at which a keyword begins in a message of the scope |
| Analyzer.TlsData.AddSourceHit | HW4/src/processes/analyzer.c:35-50 | a known source is raised, a new one appended while there is room |
| Analyzer.TlsData.Process | HW4/src/processes/analyzer.c:168-179 | an entry adds its weighted hits to each keyword score, to the total and to its source |
| Analyzer.TlsData.WorkerLoop | HW4/src/processes/analyzer.c:116-180 | a worker's loop over its entries, with the weight of its level, ends with exactly its specified work |
| Analyzer.Shared.MergeOne | HW4/src/processes/analyzer.c:77-106 | a source already stored rises by the new hits in its first slot; otherwise a source with more hits replaces the first of the least slots; no other slot changes |
| Analyzer.Shared.Destructor | HW4/src/processes/analyzer.c:64-107 | the destructor adds a worker's figures to the level's result as the merge specifies |
| Tallies.WorkIsExact | HW4/src/processes/analyzer.c:168-176 | a worker's total equals the sum of its keyword scores and the weighted hits of its entries |
| Tallies.TrackedSourcesExact | HW4/src/processes/analyzer.c:35-50 | a worker tracks each source once with its exact score, and misses none while there is room |
| Tallies.TracksSourcesHit | HW4/src/processes/analyzer.c:43-49 | while no more than 256 sources have hits, the tracked names are exactly the sources with hits |
| MergeOrder.ScoreRearranged | HW4/src/processes/analyzer.c:168-176 | the score of a multiset of entries does not depend on their order |
| MergeOrder.OrderingIsComplete | HW4/src/processes/analyzer.c:64-75 | a destructor order without repeats over all workers leaves nobody out |
| MergeOrder.TotalsIndependentOfSplit | HW4/src/processes/analyzer.c:64-75 | for every split of the entries and every destructor order, total score = sum of keyword scores = the score of one worker alone; the first 64 workers have their own scores stored, and these add up to the total if there are no more |
| MergeOrder.KeywordsIndependentOfSplit | HW4/src/processes/analyzer.c:70-72 | for every split and order each keyword is credited with exactly its own score over all entries |
| MergeOrder.EntriesCounted | HW4/src/processes/analyzer.c:74-74 | for every split and order all entries are counted |
| MergeOrder.TopSourcesNeverOverstated | HW4/src/processes/analyzer.c:77-106 | for every split and order the stored top sources are distinct and none is credited with more than its true score |
| MergeOrder.FewSourcesAreExact | HW4/src/processes/analyzer.c:77-107 | for every split and destructor order, when at most three sources have hits each of them stands in a slot with exactly its score over all entries |
| MergeOrder.EvictedSourceIsLost | HW4/src/processes/analyzer.c:89-105 | two workers and four sources after which a source with two hits in all stands in no slot while sources with one hit do |
| MergeOrder.OneWorkerTopIsExact | HW4/src/processes/analyzer.c:77-106 | with one worker and no more than 256 sources with hits, every source is stored with its true score or scores no more than any stored one |
| FileScore.SharesAreFile | HW4/src/processes/analyzer.c:140-180 | with clean cuts, a run that can go no further has split among the level's workers exactly the entries of the level to which reads of the file parse, each as often |
| FileScore.LevelScoresFile | HW4/src/processes/analyzer.c:64-180 | end to end: then the merged total of the level is the score of those entries and its entry count their number, for every interleaving, split and merge order |
| OrderHeap.RootIsLeast | HW5/src/priority_queue.c:18-21 | in a heap the root comes before or ties with every order |
| OrderHeap.SwapUp | HW5/src/priority_queue.c:29-39 | a swap with the parent moves the only violation one level up |
| OrderHeap.SwapDown | HW5/src/priority_queue.c:41-54 | a swap with the smaller child moves the only violation one level down |
| OrderHeap.SiftUp | HW5/src/priority_queue.c:29-39 | sifting up restores the heap and keeps the multiset of orders |
| OrderHeap.SiftDown | HW5/src/priority_queue.c:41-54 | sifting down restores the heap and keeps the multiset of orders |
| OrderHeap.PriorityQueue.Push | HW5/src/priority_queue.c:103-125 | a push adds to the multiset of orders, or refuses when full |
| OrderHeap.PriorityQueue.TakeRoot | HW5/src/priority_queue.c:153-160 | the order taken has the smallest priority number and among those the smallest id; it alone is removed |
| OrderHeap.PriorityQueue.PopBlocking | HW5/src/priority_queue.c:127-163 | a pop removes an order of smallest priority number, smallest id among those, and reports shutdown only on an empty closed queue |
| OrderHeap.PriorityQueue.Shutdown | HW5/src/priority_queue.c:165-176 | the shutdown flag is set; the queue and its orders are kept |
| OrderHeap.PriorityQueue.Drain | HW5/src/priority_queue.c:187-211 | the orders come out by rising priority number, by rising id among equals, and all of them do |
| OrderHeap.SortedIsUnique | HW5/src/priority_queue.c:18-21 | with distinct ids there is one sorted listing |
| OrderHeap.SortedByPriorityThenId | HW5/src/priority_queue.c:18-21 | with distinct ids, in order means by rising priority number, and by rising id among equal priorities |
| Shift.EnqueueAll | HW5/main.c:18-29 | all orders are queued; no push fails at this capacity |
| CourierThread.CourierContext.Deliver | HW5/src/courier.c:54-58 | a delivery raises the global and the courier's own figures by the same amounts |
| CourierThread.CourierContext.DeliverAll | HW5/src/courier.c:30-59 | a courier alone with a closed queue delivers all that is left, in order, and the figures account for it |
| CourierThread.HandleShutdownCancellations | HW5/main.c:61-87 | after a SIGINT exactly the pending orders are drained and counted as cancelled; otherwise nothing happens |
| Shift.StepKeepsInv | HW5/src/courier.c:30-59 | every step of couriers, main thread and signal keeps order, counts and figures |
| Shift.ShiftServesInOrder | HW5/main.c:146-175 | at the end of every shift the orders popped and then those drained are the input by rising priority number and, among equals, rising id |
| Shift.PoppedIsPrefix | HW5/src/priority_queue.c:127-163 | at any time of any run the orders popped so far are a prefix of the sorted input |
| Shift.NoneOvertaken | HW5/src/courier.c:33-37 | at any moment no queued order has a smaller priority number than one already popped, nor the same and a smaller id |
| Shift.CalmShiftDeliversAll | HW5/main.c:61-87 | a shift without a SIGINT delivers every order and cancels none |
| Shift.ShiftAccountsForAll | HW5/main.c:168-178 | at the end of a shift completed + cancelled = number of orders, total time = 500 times the delivered durations, and the courier figures sum to the global ones |
| Shift.StepUsesWork | HW5/src/courier.c:30-59 | every step of a courier or the main thread lowers one measure of the work left |
| Shift.NeverStuck | HW5/main.c:53-59 | until the end of the shift some thread can step, with or without a SIGINT |
| Shift.RunsEnd | HW5/main.c:165-175 | the number of steps other than the signal is bounded, so every shift ends |
| LineFraming.Client.FindNewline | HW6/hogwarts.c:499-500 | the scan finds the first newline in the buffer, or none |
| LineFraming.Client.Consume | HW6/hogwarts.c:518-521 | the bytes behind the line move to the front of the buffer |
| LineFraming.Client.TakeLine | HW6/hogwarts.c:509-521 | a line is cut off without its newline and carriage return, up to the first NUL, and leaves the buffer |
| LineFraming.LineIsCString | HW6/hogwarts.c:513-520 | a raw line becomes what stands before its first NUL, or else all of it but a carriage return at its end |
| LineFraming.UnfinishedLine | HW6/hogwarts.c:502-511 | bytes without a newline wait in the buffer, unless there are 512 or more: then the connection is closed |
| LineFraming.Client.TakeBytes | HW6/hogwarts.c:495-534 | the bytes of a successful read are buffered, and complete lines cut and handled, exactly as the specification of a read says |
| LineFraming.Client.HandleInput | HW6/hogwarts.c:479-535 | a full buffer, an error and the end of the stream close the connection, an interrupted read changes nothing, and bytes are buffered and cut into lines |
| LineFraming.ParseResumes | HW6/hogwarts.c:498-508 | parsing a stream may stop anywhere and be taken up again with what was left over |
| LineFraming.ReceiveAllIsParse | HW6/hogwarts.c:479-535 | a sequence of reads leads to the same state as parsing all their bytes at once |
| LineFraming.FramingIgnoresSegmentation | HW6/hogwarts.c:479-535 | the lines handled and the way the connection ends depend on the bytes sent, not on how they were cut into reads |
| LineFraming.AlwaysRoom | HW6/hogwarts.c:482-487 | no open connection ever has a full buffer, so the no-room branch is never reached |
| LineFraming.LinesReadBack | HW6/hogwarts.c:509-529 | plain lines that fit, sent with either line ending, are handled one by one exactly as they were sent |
| Book.Table.Lookup | HW6/hogwarts.c:202-207 | the scan finds the first entry of that name, or none |
| Book.Table.Add | HW6/hogwarts.c:209-221 | an entry is raised or appended; nothing is kept when the table is full and the name is new |
| Book.Table.Sub | HW6/hogwarts.c:223-232 | an entry is lowered to no less than zero and, at zero, replaced by the last one |
| Book.PutHeld | HW6/hogwarts.c:209-221 | adding changes what is held of that name alone, by the quantity, if there is room; names stay distinct and quantities positive |
| Book.TakeHeld | HW6/hogwarts.c:223-232 | taking changes what is held of that name alone, by the quantity or to nothing; the swap-removal loses no other entry |
| Book.TakeUndoesPut | HW6/hogwarts.c:209-232 | taking what was just added gives back the very same table |
| Book.RoomForAnother | HW6/hogwarts.c:215-215 | a table over the names of a list has room for each name of the list it lacks |
| Cauldron.LoadIngredients | HW6/hogwarts.c:133-162 | the loader keeps the well-formed rows, the first of each name, while there is room |
| Slots.FindFreeSlot | HW6/hogwarts.c:176-180 | the scan gives a connection the first slot without one, and fails only if every slot has one |
| Cauldron.LoadedIsTidy | HW6/hogwarts.c:143-159 | loaded ingredients have valid, distinct names and positive quantities |
| Cauldron.FirstRowCounts | HW6/hogwarts.c:143-159 | while the table has room, the first well-formed row of a name decides its quantity |
| Cauldron.QuantityExact | HW6/hogwarts.c:234-242 | a word is a quantity exactly if it is blanks, perhaps a plus sign, and the digits of a number in 1..1000000 |
| Cauldron.QuantityReadsBack | HW6/hogwarts.c:234-242 | a number written in decimal is read back exactly when it is in 1..1000000 |
| Cauldron.WordsReadBack | HW6/hogwarts.c:389-390 | words written with blanks between them are read back as they were |
| Cauldron.WordsByCases | HW6/hogwarts.c:389-390 | for any line: spaces and tabs are passed over, and a word ends at the next of them or at the end |
| Cauldron.BrewCommand | HW6/hogwarts.c:244-268 | the command changes stock and spellbook in place as specified, or refuses and changes neither |
| Cauldron.ConsumeCommand | HW6/hogwarts.c:270-304 | the command changes stock and spellbook in place as specified, or refuses and changes neither |
| Cauldron.BrewSucceedsIffOrdered | HW6/hogwarts.c:244-268 | a brew succeeds exactly for a known ingredient and a quantity in range; it raises that stock by it, and the spellbook if it has room, and nothing else |
| Cauldron.ConsumeSucceedsIffHeld | HW6/hogwarts.c:270-304 | a consume succeeds exactly when, besides, at least the quantity is held, wherever it stands in the book; both fall by it, and otherwise nothing changes |
| Cauldron.OnlyWizardsTrade | HW6/hogwarts.c:434-451 | BREW and CONSUME act for enrolled wizards only; all others are refused and nothing changes |
| Cauldron.EnrollsIffFree | HW6/hogwarts.c:401-432 | an enrollment succeeds exactly once, with a known role and a name of 1 to 31 characters that no other enrolled client has |
| Cauldron.ConnectsIffVacant | HW6/hogwarts.c:176-180 | a connection is refused exactly when every slot has one, and else gets the first vacant slot, wiped |
| Cauldron.LeavingFreesSlot | HW6/hogwarts.c:171-200 | a client that leaves, by command or not, frees its slot for the next connection and disturbs nobody |
| Cauldron.ConsumeUndoesBrew | HW6/hogwarts.c:244-304 | consuming what was just brewed restores stock and spellbook exactly if the spellbook had room for the brew, and only then |
| FullSpellbook.SpellbookFills | HW6/hogwarts.c:209-221 | a run that enrolls a wizard and brews n of a stock's ingredients, n up to 64, leaves exactly those n in the spellbook |
| FullSpellbook.NextBrewIsLost | HW6/hogwarts.c:215-215 | with more than 64 ingredients, after 64 brews the next one raises the stock, leaves the spellbook as it was, and cannot be consumed |
| FullSpellbook.SixtyFifthBrewIsLost | HW6/hogwarts.c:133-162 | such a stock can be loaded: 65 rows of a file, all kept, on which the 65th brew is lost |
| Cauldron.FarewellIffApparates | HW6/hogwarts.c:389-399 | the command handler ends the session at exactly the lines at which the line reader stops |
| CauldronRuns.BrewExchanges | HW6/hogwarts.c:257-259 | a brew raises stock and spellbook alike, except for what a full spellbook could not keep |
| CauldronRuns.ConsumeExchanges | HW6/hogwarts.c:291-293 | a consume lowers stock and spellbook alike |
| CauldronRuns.StepKeeps | HW6/hogwarts.c:382-477 | every connect, command and departure keeps the invariant and accounts for every quantity |
| CauldronRuns.StockIsConserved | HW6/hogwarts.c:192-304 | in every run a stock is its initial quantity plus what connected wizards hold plus what was left behind, so it never falls below its initial quantity |
| CauldronRuns.SpellbooksStayTidy | HW6/hogwarts.c:202-232 | in every run spellbook names are distinct with positive quantities, at most 64, only wizards have any, and enrolled user names differ |
| CauldronRuns.SmallStockLosesNothing | HW6/hogwarts.c:215-215 | with at most 64 ingredients no brew of any run is left behind |
| Regex.RegexMatch | HW1/src/regex.c:4-34 | the matcher accepts exactly the strings made of one block for each atom of the pattern |
| Regex.MatchWhole | HW1/src/regex.c:4-34 | the backtracking loop accepts exactly what taking blocks off the front accepts |
| Regex.AcceptsIffInLanguage | HW1/src/regex.c:7-33 | taking blocks off the front accepts exactly the language of the pattern |
| Regex.EmptyPattern | HW1/src/regex.c:7-7 | the empty pattern matches the empty name only |
| Regex.SingleCharacters | HW1/src/regex.c:9-28 | a one-character pattern matches a one-character name exactly when both are below 128 and equal or the capital and small form of one letter |
| Regex.FirstOfPattern | HW1/src/regex.c:26-33 | a character without a plus behind it takes exactly one character, itself in either case, and the rest must match |
| Regex.FirstRunOfPattern | HW1/src/regex.c:12-25 | a character with a plus behind it takes one or more such characters, and the rest must match |
| Regex.Match | HW2/src/regex.c:4-29 | the prefix matcher accepts exactly when some prefix is in the language |
| Regex.Search | HW2/src/regex.c:31-40 | the search accepts a name exactly when some contiguous part of it is accepted by the whole-name matcher |
| Regex.LanguageIgnoresCase | HW1/src/regex.c:9-9 | lowering pattern and name does not change the verdict |
| Regex.CapitalsDoNotMatter | HW1/src/regex.c:9-27 | replacing any one capital of the pattern or of the name by its small letter does not change the verdict |
| Regex.LanguageOfConcat | HW1/src/regex.c:12-33 | two patterns in a row match a name exactly when it can be cut in two parts that they match |
| TreePrint.SplitPath | HW2/src/tree.c:12-29 | the token loop keeps the first 32 non-empty names of the first 4095 characters, each cut to 255 |
| TreePrint.ComponentsByCases | HW2/src/tree.c:20-27 | for any path: slashes are passed over, and a name ends at the next slash or at the end |
| TreePrint.SplitKeepsFirst | HW2/src/tree.c:14-27 | what is kept: of the first 4095 characters the first 32 names, of each the first 255 characters |
| TreePrint.SplitIsExact | HW2/src/tree.c:12-29 | the buffers keep a path exactly when it has at most 32 names of at most 255 characters and only slashes past character 4095 |
| TreePrint.PrintMatch | HW2/src/tree.c:48-69 | the lines printed for a match are those below the directories shared with the match before |
| TreePrint.PrintTree | HW2/src/tree.c:31-72 | the printed lines are the specified ones, match by match; no matches print the notice |
| TreePrint.Common | HW2/src/tree.c:51-55 | the shared directories are a longest common run of names, file names excluded |
| TreePrint.TreeReadsBack | HW2/src/tree.c:31-71 | reading the printed lines with a stack gives back the kept names of every match in order |
| TreePrint.NothingIsLost | HW2/src/tree.c:12-71 | the tree reads back as exactly the full paths if and only if every path has a name below the root and is within the buffers' limits |
| TreePrint.DeepPathIsLost | HW2/src/tree.c:21-28 | a path of more than 32 one-letter names reads back as its first 32 names |
| TreePrint.LongNameIsLost | HW2/src/tree.c:23-24 | a name of 256 characters, given to the printer alone since a directory walk cannot meet one, reads back without its last one |
| TreePrint.TextIsUnambiguous | HW2/src/tree.c:5-10 | depth and name can be read off a printed line even when the name starts with dashes |
| Portfolio.Exchange.Find | Final/ServerTrd.c:174-180 | the scan finds the first listing of a symbol, or none |
| Portfolio.Exchange.ProcessBuy | Final/ServerTrd.c:271-304 | a purchase raises price and portfolio in place as specified, or refuses and changes neither |
| Portfolio.Exchange.ProcessSell | Final/ServerTrd.c:306-345 | a sale lowers price and portfolio in place as specified, or refuses and changes neither |
| Portfolio.AcceptsIffVacant | Final/ServerTrd.c:124-134 | a connection is taken exactly when some slot has none: the first such slot, with an empty portfolio |
| Portfolio.LeavingFreesSlot | Final/ServerTrd.c:158-172 | a client that leaves frees its slot and its name for others and disturbs nobody |
| Portfolio.JoinsIffFree | Final/ServerTrd.c:187-207 | a client joins exactly once, with a known role and a name no joined client has |
| Slots.FreeSlot | Final/ServerTrd.c:124-134 | a connection takes the first slot without a connection, and fails only if every slot has one |
| PortfolioRuns.RoomInPortfolio | Final/ServerTrd.c:291-295 | a purchase of a listed symbol always finds room in the portfolio |
| PortfolioRuns.StepKeeps | Final/ServerTrd.c:182-345 | every order keeps portfolios distinct, positive and listed, and the shares held within what the trades account for |
| PortfolioRuns.HoldingIsNet | Final/ServerTrd.c:124-345 | in every run a connected client holds of each symbol exactly what it bought less what it sold since connecting |
| PortfolioRuns.SaleIffNetSuffices | Final/ServerTrd.c:306-325 | a sale goes through exactly for a joined trader, a listed symbol and a positive number of shares no greater than that net |
| PortfolioRuns.PurchaseIffListed | Final/ServerTrd.c:271-290 | a purchase goes through exactly for a joined trader, a listed symbol and a positive number of shares |
| PortfolioRuns.OutstandingNotNegative | Final/ServerTrd.c:323-336 | over any run no more shares are sold than were bought |
| PortfolioRuns.PriceCountsShares | Final/ServerTrd.c:280-330 | in every run a price is at least its initial value plus a cent for each share outstanding, and exactly that for a stock listed at a cent or more, so the floor is then never used |
| PortfolioRuns.BuyThenSellRestores | Final/ServerTrd.c:280-336 | in every run, buying and selling straight back restores the whole market exactly when the price was at least a cent |
| PortfolioRuns.SubCentStockEndsAtCent | Final/ServerTrd.c:94-95 | a stock listed at half a cent, bought once and sold back, ends at a cent |
| PortfolioRuns.DuplicateNeverMoves | Final/ServerTrd.c:107-110 | a second listing of a symbol is never traded |

## Left out

- MergeOrder.TopSourcesNeverOverstated: does not claim the exact top three for several workers and more than three sources, where a source evicted by one destructor restarts from the next worker's count (`MergeOrder.EvictedSourceIsLost`); up to three sources `MergeOrder.FewSourcesAreExact` does.
- BuildingRuns.NoCircularWait: is about mutexes; processes also wait on semaphores of the elevators and, after arrival, by polling, which `ElevatorRuns` treats separately.
- ElevatorRuns.ServedInTime: runs before shutdown, when riders drop their requests; says that the requested floor is served, not that the rider leaves; a polling rider may miss the stop (HW3/src/processes/letter_carrier.c:95-102).
- CourierThread.CourierContext.DeliverAll: runs alone on a closed queue; the interleaving of couriers is in `Shift`, step by step.
- WordCarrier.Words.Turn: runs without interruption; the interleaving of word carriers is in `Building`, step by step.
- The loops of letter carriers (riding included), reader, parser and worker threads, and of the HW5 main thread, appear as steps of state machines rather than as methods: their updates in place are those steps.
- ReaderRanges.ReadRange: gives the lines as read; stripping, blank and malformed lines are in `LogFile.ReaderThread`.
- ReaderRanges.RunReader: runs the threads one after another; their interleaving, the shared buffer and the parser are in `Pipeline`, and `LogFile.FileIsProcessed` joins the two.
- DispatcherLoop.Loop.SendEof: leaves out the wait for room in the level's queue, which `Pipeline` has.
- DispatcherLoop.Loop.Handle: leaves out the wait for room in the level's queue and its timeout; a push into region D that times out is a parameter.
- Cauldron.LoadIngredients: takes rows of a name and a number; reading them off the file with fgets and sscanf is left out.
- LineFraming.Client.HandleInput: takes the outcome of the read as a parameter; idle timeouts are departures in `CauldronRuns`.
- Eventual admission of every word in HW3: arrival shares are never given back, so it does not hold in general.
- Processes killed while holding a semaphore, replacement letter carriers, and failed malloc, fork or fopen.
- HW4 end-to-end delivery for several reader processes, which does not hold: `ManyReaders` states exactly when every entry goes out ahead of the EOF, `ManyReadersDelivery` what is then processed.
- ManyReadersDelivery.ProcessedIffRegionAClear: is for one worker a level; with more, a worker that has not yet seen the EOF may still process an entry behind it, so for them only `ManyReadersDelivery.ClearMeansProcessed` holds.
- HW4 timed-out pushes into region B (entries dropped after the timeout), heartbeat, watchdog, and what the aggregator makes of region D.
- The log line parser of HW4 is a parameter; in Final, orders arrive as sscanf reads them.
- Floating-point rounding of prices and scores, and int overflow of long-running counters.
- Sockets, select, idle timeouts (a timeout is a departure), files, mmap, signal delivery and log output; replies are values, their text is not modelled beyond the tree lines.
- The text of spellbook, scroll, roster, report, list and portfolio replies, and their truncation.
- Line framing of the Final server, which follows the same scheme with a one-byte smaller buffer and no disconnect on an overlong line.
- HW1 and HW2 directory walks, command-line parsing, client programs and the unused ring in HW4/src/utils/buffer.c.
