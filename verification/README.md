# Verified model of bifang

bifang is a C++ coroutine server framework. This project models the parts of it whose correctness is hard to see from
the code and proves what they promise, in Dafny 4.11. `dafny verify dfyconfig.toml` checks everything.

## What is modelled

* **Chinese word segmentation** (`Unicode`, `PreFilter`, `Trie`, `DictTrie`, `MPSegment`, `HMMSegment`, `MixSegment`).
  The dictionary index is a heap tree proved to agree with a plain map, which holds exactly the dictionary's words. The
  dynamic program is proved to find the heaviest split against all splits, given splits above the floor (a sanity check
  shows that the hypothesis is needed), which ordinary dictionaries and texts always have. The Viterbi search is proved
  to find the best tagging against all taggings as soon as one tagging that ends a word scores above the floor. The
  merged segmenter is proved lossless from bytes to bytes, and the words rebuild the sentence exactly when the sentence
  decodes. `Scores` bounds sums of scores.
* **The coroutine scheduler with its event table** (`Tasks`, `Scheduler`, `IoTable`, `Protocol`, `ProtocolSteps`,
  `ProtocolTheorems`, `ProtocolAccounts`, `ProtocolTimeouts`, `ProtocolWaking`, `ProtocolProgress`). `Scheduler` and
  `IoTable` are the queue and the epoll table as objects whose methods are single locked operations. `Protocol` is a
  state machine of any number
  of workers in `Scheduler::run`, their idle fibers, fibers blocked in `do_io`, timeout callbacks and outside threads;
  one step is what one thread does while no other can see it half done. The invariant is proved for every step and from
  it safety over every run: exclusive execution, one queueing per wait, and nothing outstanding when a worker leaves.
  `ProtocolAccounts` keeps the accounts: no timer, registration or callback is dropped on the way, so that when the
  manager may stop everything has been started as often as it was submitted, fired or triggered.
  `ProtocolWaking` and `ProtocolProgress` settle what a `do_io` timeout is worth: over all continuations, either nothing
  but the event itself can wake the fiber, or some run of the workers alone does; and once asked to stop, the workers
  can bring the manager to its end from every reachable state.
* **The chunked buffer and its varints** (`Flat`, `Buffer`, `Varint`). A linked list of blocks with a cached current
  block refines one flat byte array with a cursor, and whatever numbers are written are read back.
* **Timers** (`Timer`). An ordered set with mutable keys stays ordered, the timers listed as due are exactly those due,
  and no wake-up is lost.
* **Codecs** (`Bencode`, `Md5`, `Base64`). Round trips, independence of how input is cut into calls, and padding.

Classes of the original that change in place are classes here, with the same fields and loops. Each method is proved
against a function or a property of the old state, and lemmas prove what the original promises about that function.
Sets and maps that the original keeps in the heap behind a smart pointer are fields. Fields named `blocks`, `regs`,
`dict`, `msg`, `all` and the like are ghost: they say what the concrete fields mean.

## How the protocol is cut into steps

* `add`, with the growth of the table, is one step, and so is a trigger up to the lowering of the pending count, which
  is a step of its own.
* `listExpiredCb` and the scheduling of what it lists are one step per timer.
* The three reads in `stopping(timeout)` are one step.
* The active count is lowered in a step before the fiber is marked INIT again, as in the code.
* Every callback runs on a fiber of its own.
* The timeout callback tests the mark of its call and sets it in one step. The code does so without a lock, so two
  callbacks of one call, from two of its attempts, could both find it unset and both cancel the event.
* User code and outside threads schedule callbacks and new fibers only. The code also lets them schedule a fiber that
  is queued, waiting or dead already; that a fiber is in one place, and that the branch for dead fibers is never taken,
  rests on nobody doing so.
* User code may come to its end at any time, as a call tried again may succeed; the runs that show what is possible
  choose so.
* A fiber parks in one place per yield, as `do_io` does.
* Threads outside the manager submit work only while `stopping` does not hold.

## Findings

* A `do_io` timeout can be lost. If the timer fires, and its callback runs to its end, between `addConditionTimer` and
  `add`, the callback finds no event to cancel, and the fiber then waits with nothing left to wake it at its timeout.
  `ProtocolProgress.LostExactlyAtAdd` proves that exactly then every later run leaves the fiber in the table until
  somebody else touches its event, and `TimeoutCanWake` that otherwise the workers alone can still wake it.
  `ProtocolTimeouts.TimeoutCanBeLost` is a full run to such a wait.
* A rune in none of the emission tables makes the tags wrong, not only uncertain: it brings every later cell to the
  floor, whose back-pointers all say E. `HMMSegment.BestExactlyIfKnown` proves, for texts whose other runes can be
  tagged along known entries, that the tags read back are best exactly if the text is one rune or has no such rune, and
  `UnknownRuneNotBest` shows a failure with the numbers of the repository's own model.
* A readiness report that names both events of a descriptor although only one is still registered breaks the assertion
  in `IOContext::trigger`. `IoTable.UnregisteredReport` says exactly which reports do, and
  `IoTable.UnregisteredReportArises` gets there: both events are registered and reported, then one is cancelled before
  the worker looks at the report.
* `Timer::refresh` loses a wake-up for an interval so large that the deadline wraps around 2^64.
* The parser refuses empty strings, which the printer writes. The round trip holds exactly for values without them.
* The documentation in src/buffer.h allows `setPosition` up to the capacity; at exactly the capacity the code walks off
  the list and dereferences null. `Buffer.Buffer.Seek` and `SetPosition` prove that it does so for no other position.

## Model

| member | source | states |
|---|---|---|
| `Unicode.DecodeInvertsEncode` | src/cppjieba/Unicode.hpp:87-140 | the decoder gives back every code point below 2^21 from its UTF-8 bytes, whatever follows them, and its length (section 3 of RFC 3629) |
| `Unicode.RuneLengths` | src/cppjieba/Unicode.hpp:87-140 | on any bytes how long a rune is depends on its first byte, and it is none if the bytes are not all there |
| `Unicode.DecodeRunes` | src/cppjieba/Unicode.hpp:142-157 | succeeds exactly for sentences that decode rune by rune; the runes are consecutive, start at byte 0, end at the last byte and hold what is decoded at their offsets; a failure leaves none |
| `Unicode.WordBytes` | src/cppjieba/Unicode.hpp:193-198 | a word of a decoded sentence holds exactly the bytes from its first rune up to the rune behind its last, and its byte and rune positions |
| `Unicode.GetWordsFromWordRanges` | src/cppjieba/Unicode.hpp:206-210 | appends one word per range, in order, to those there already |
| `Unicode.WordsLossless` | src/cppjieba/Unicode.hpp:193-210 | words of consecutive ranges concatenate to exactly the bytes the ranges cover, are not empty, and stand at their byte and rune offsets |
| `PreFilter.PreFilter.constructor` | src/cppjieba/PreFilter.hpp:18-26 | holds the decoded sentence, or nothing if it does not decode |
| `PreFilter.PreFilter.Next` | src/cppjieba/PreFilter.hpp:32-47 | the next range starts at the cursor and is one separator or the longest stretch without one; the cursor moves behind it |
| `Trie.Trie.constructor` | src/cppjieba/Trie.hpp:53-56 | a new index stores exactly the non-empty keys, each with the last entry given for it, and nothing without keys or entries |
| `Trie.Trie.CreateTrie` | src/cppjieba/Trie.hpp:146-155 | the same for inserting into an empty index |
| `Trie.BuildDictKeys` | src/cppjieba/Trie.hpp:146-155 | after any number of insertions exactly the non-empty keys inserted are stored |
| `Trie.BuildDictLast` | src/cppjieba/Trie.hpp:146-155 | and each with the last entry inserted under it |
| `Trie.Trie.Descend` | src/cppjieba/Trie.hpp:128-139 | the child for a rune is found or created and the tree stays a tree with the same entries |
| `Trie.Trie.InsertNode` | src/cppjieba/Trie.hpp:120-143 | after an insertion the heap tree stores the old map with this key replaced and every other key untouched; the empty key is ignored |
| `Trie.Trie.Unshared` | src/cppjieba/Trie.hpp:41-49 | no node hangs from two links and none links back to the root |
| `Trie.Trie.Find` | src/cppjieba/Trie.hpp:61-79 | exact search answers what the plain map answers for every key, the empty one included |
| `Trie.Trie.NothingBeyond` | src/cppjieba/Trie.hpp:104-111 | past a missing node no dictionary word begins, so leaving the loop early drops nothing |
| `Trie.Trie.FindEdges` | src/cppjieba/Trie.hpp:93-116 | the edges of one start are those of the plain map |
| `Trie.Trie.FindDag` | src/cppjieba/Trie.hpp:81-118 | every start gets its rune and its edges |
| `Trie.EdgesExact` | src/cppjieba/Trie.hpp:81-118 | the edges of a start are first the single rune, then in increasing length exactly the dictionary words within the limit |
| `DictTrie.DictTrie.constructor` | src/cppjieba/DictTrie.hpp:175-185 | exactly the non-empty words of the entries are found, each with the last entry that has it |
| `DictTrie.FloorIsFar` | src/cppjieba/DictTrie.hpp:22-22 | the floor is -3.14e+100, and 2^33 entries of at least -1000 add up to more |
| `DictTrie.BuildDictOwnWords` | src/cppjieba/DictTrie.hpp:175-185 | whatever is inserted, every stored entry is found under its own word |
| `DictTrie.DictTrie.InsertUserWord` | src/cppjieba/DictTrie.hpp:43-62 | fails exactly for a word that does not decode; otherwise the map changes at that word only and entries stay under their own words |
| `MPSegment.MPSegment.BestEdge` | src/cppjieba/MPSegment.hpp:85-105 | the first of the heaviest edges, or the floor if no edge is above it |
| `MPSegment.MPSegment.CalcDP` | src/cppjieba/MPSegment.hpp:79-107 | after the reverse loop every entry is settled against the final table, and runes and edges are as before |
| `MPSegment.MPSegment.CutByDag` | src/cppjieba/MPSegment.hpp:108-126 | the ranges pushed follow the table from start 0 |
| `MPSegment.MPSegment.Cut` | src/cppjieba/MPSegment.hpp:54-126 | the appended words tile the range by legal pieces; they are the heaviest split given splits above the floor, and so without further condition for ordinary dictionaries and texts |
| `MPSegment.EdgeIsPiece` | src/cppjieba/MPSegment.hpp:88-105 | an edge's entry is the dictionary's answer for the runes it covers |
| `MPSegment.StepIsPiece` | src/cppjieba/MPSegment.hpp:114-119 | advancing by the length of the entry's word always agrees with the edge the table chose |
| `MPSegment.TableBounds` | src/cppjieba/MPSegment.hpp:84-106 | no split of the runes from a start weighs more than the table says |
| `MPSegment.PathHasTableWeight` | src/cppjieba/MPSegment.hpp:79-126 | the path read back weighs exactly the table's weight |
| `MPSegment.PathIsSplit` | src/cppjieba/MPSegment.hpp:108-126 | the path read back splits the runes into single runes and dictionary words within the limit, floor or not |
| `MPSegment.PathIsHeaviest` | src/cppjieba/MPSegment.hpp:79-126 | against every other split the path read back is the heaviest, ties go to the shorter first piece, and the same holds behind each piece |
| `MPSegment.TableCut` | src/cppjieba/MPSegment.hpp:54-65 | what the ranges read back from a solved table are |
| `MPSegment.RangesRoundTrip` | src/cppjieba/MPSegment.hpp:108-126 | the pushed ranges tile the runes and have the lengths of the pieces |
| `MPSegment.BoundedWeightsStayAboveFloor` | src/cppjieba/MPSegment.hpp:84-106 | weights bounded below give every rest of a text of reasonable length a split above the floor |
| `MPSegment.OrdinaryIsBest` | src/cppjieba/MPSegment.hpp:54-126 | with words within the limit and weights of at least -1000, as logarithms of frequencies are, a text of up to 2^32 runes is cut best among all splits into single runes and dictionary words of any length |
| `MPSegment.BelowFloorNotHeaviest` | src/cppjieba/MPSegment.hpp:86-104 | a sanity check: with weights below the floor, which no logarithm of a frequency is, the result need not be heaviest |
| `HMMSegment.HMMSegment.SettleCell` | src/cppjieba/HMMSegment.hpp:152-165 | one cell gets the best way in and the tag it comes from; all others stay |
| `HMMSegment.HMMSegment.FirstColumn` | src/cppjieba/HMMSegment.hpp:144-147 | the first column holds the start scores |
| `HMMSegment.HMMSegment.NextColumn` | src/cppjieba/HMMSegment.hpp:151-166 | a column is settled and those before it stay so |
| `HMMSegment.HMMSegment.ReadBack` | src/cppjieba/HMMSegment.hpp:168-181 | the status read back follows valid tags from the better of E and S, and from E for a tie |
| `HMMSegment.HMMSegment.Viterbi` | src/cppjieba/HMMSegment.hpp:130-182 | the tags end in E or S and score highest of all such taggings of that length, for one rune or as soon as one such tagging scores above the floor and no step raises a score; in particular for known runes with entries of at least -1000 and up to 2^32 runes |
| `HMMSegment.TableBounds` | src/cppjieba/HMMSegment.hpp:151-166 | no tagging scores more than the cell it ends in |
| `HMMSegment.ScoreIsTableScore` | src/cppjieba/HMMSegment.hpp:144-161 | the score of known runes is the sum of start, transition and emission entries |
| `HMMSegment.TracedAbove` | src/cppjieba/HMMSegment.hpp:168-181 | if one tagging that ends a word is above the floor, so is every cell on the path read back |
| `HMMSegment.TracedScore` | src/cppjieba/HMMSegment.hpp:168-181 | then each prefix of the traced tags scores exactly its cell |
| `HMMSegment.TracedIsBest` | src/cppjieba/HMMSegment.hpp:130-182 | following the back-pointers from the better of E and S gives a tagging no other beats |
| `HMMSegment.KnownWalkIsAbove` | src/cppjieba/HMMSegment.hpp:151-166 | with logarithms for scores one walk over known entries to E or S is enough for texts of reasonable length |
| `HMMSegment.UnknownFloors` | src/cppjieba/HMMSegment.hpp:151-166 | a rune in no emission table brings its column and all later ones to the floor, with back-pointers to E |
| `HMMSegment.BestExactlyIfKnown` | src/cppjieba/HMMSegment.hpp:130-182 | on texts with a walk over known entries apart from unknown runes, the tags read back are best exactly if the text is one rune or has no unknown rune |
| `HMMSegment.UnknownRuneNotBest` | src/cppjieba/HMMSegment.hpp:130-182 | with the numbers of configs/dict/hmm_model.utf8 a known rune before an unknown one is tagged E E, which is not best |
| `HMMSegment.HMMSegment.InternalCut` | src/cppjieba/HMMSegment.hpp:114-128 | the run is cut exactly behind each E or S of the tags found, which are best under the same condition, and nothing is left over |
| `HMMSegment.RunCutMeaning` | src/cppjieba/HMMSegment.hpp:114-128 | a word ends at a rune exactly if the rune is tagged E or S |
| `HMMSegment.HMMSegment.SequentialLetterRule` | src/cppjieba/HMMSegment.hpp:79-95 | a letter takes the longest run of letters and digits; anything else takes nothing |
| `HMMSegment.HMMSegment.NumbersRule` | src/cppjieba/HMMSegment.hpp:97-113 | a digit takes the longest run of digits and dots; anything else takes nothing |
| `HMMSegment.HMMSegment.AsciiWordEnd` | src/cppjieba/HMMSegment.hpp:55-65 | the word of an ASCII rune ends by the letter rule, the number rule, or alone |
| `HMMSegment.StretchLongest` | src/cppjieba/HMMSegment.hpp:86-93 | a stretch fits throughout and what follows it does not |
| `HMMSegment.SegmentEndMeaning` | src/cppjieba/HMMSegment.hpp:46-113 | in terms of the characters: which runes a letter, a digit, another ASCII rune and a non-ASCII rune take with them |
| `HMMSegment.HMMSegment.Cut` | src/cppjieba/HMMSegment.hpp:46-76 | the appended words are those of consecutive segments: ASCII words by rule, runs of other runes by best tags |
| `HMMSegment.HmmCutTiles` | src/cppjieba/HMMSegment.hpp:46-76 | the words of the segments tile the range |
| `HMMSegment.HmmCutMeaning` | src/cppjieba/HMMSegment.hpp:46-76 | segments follow one another, an ASCII segment is one word, any other is cut by its tags |
| `MixSegment.MixSegment.RecutStretch` | src/cppjieba/MixSegment.hpp:65-84 | the longest stretch of single words outside the user dictionary is replaced by its tagging cut |
| `MixSegment.MixSegment.RecutWords` | src/cppjieba/MixSegment.hpp:56-85 | every such stretch is recut and every other word is kept, in order |
| `MixSegment.KeptWordsSurvive` | src/cppjieba/MixSegment.hpp:58-63 | every longer word of the dictionary cut and every one-rune word of the user dictionary is in the result |
| `MixSegment.RunIsRecut` | src/cppjieba/MixSegment.hpp:65-82 | every maximal run of one-rune words that the user dictionary does not have is replaced by a tagging cut of exactly its runes |
| `MixSegment.MixSegment.CutRange` | src/cppjieba/MixSegment.hpp:46-86 | the words of one range are a heaviest dictionary cut, as it is or recut, and tile the range |
| `MixSegment.RangeCutMeaning` | src/cppjieba/MixSegment.hpp:47-57 | without tagging a range is the best split of the dictionary as it is, and with tagging that split recut |
| `MixSegment.MixSegment.CutRanges` | src/cppjieba/MixSegment.hpp:36-40 | the ranges of the pre-filter are cut one after the other, none left out |
| `MixSegment.CutAtSymbols` | src/cppjieba/MixSegment.hpp:36-42 | a range starts inside the sentence exactly at a separator or behind one |
| `MixSegment.MixSegment.Cut` | src/cppjieba/MixSegment.hpp:32-44 | the words of a decodable sentence are those of its ranges; of any other sentence there are none |
| `MixSegment.CutOkIsSentenceCut` | src/cppjieba/MixSegment.hpp:32-86 | with or without tagging the sentence is cut into consecutive words, separators on their own |
| `MixSegment.SentenceCutLossless` | src/cppjieba/MixSegment.hpp:32-44 | such words are non-empty, concatenate to exactly the input bytes and stand at their offsets |
| `MixSegment.CutLossless` | src/cppjieba/KeywordExtractor.hpp:61-78 | the lengths of the words add up to that of the sentence, as keyword extraction checks, exactly when the sentence decodes |
| `Tasks.FirstReadyBounds` | src/scheduler.cpp:170-186 | the scan stops at the first queue entry that is not an executing fiber, or finds only executing fibers |
| `Scheduler.Scheduler.ScheduleNoLock` | src/scheduler.h:134-143 | pushes a fiber or function, drops a null one, and says whether the queue was empty |
| `Scheduler.Scheduler.Schedule` | src/scheduler.h:97-107 | the queue never stops being empty without idle workers being told |
| `Scheduler.Scheduler.ScheduleAll` | src/scheduler.h:114-128 | a batch keeps its order and tells idle workers once, exactly if the queue was empty and the batch is not |
| `Scheduler.Scheduler.TakeTask` | src/scheduler.cpp:167-191 | takes exactly what the scan finds and counts the worker; tells another worker exactly if something is left behind it; otherwise changes nothing |
| `Scheduler.FirstReadyIsFirst` | src/scheduler.cpp:170-186 | which entry is taken: the first that is not an executing fiber |
| `ProtocolSteps.TakeKeeps` | src/scheduler.cpp:168-188 | taking from the queue keeps every fiber in exactly one place |
| `ProtocolSteps.HeldIsReady` | src/scheduler.cpp:193-199 | a fiber in the hands of a worker is INIT and on no stack, so the branch for dead fibers is never taken |
| `ProtocolSteps.SwapInKeeps` | src/fiber.cpp:122-129 | swapping in keeps all references to fibers and all calls |
| `ProtocolSteps.TriggerKeeps` | src/iocontext.cpp:56-72 | a trigger moves the waiting fiber from the table to the queue and breaks nothing, even while it still executes |
| `ProtocolSteps.AddEventKeeps` | src/iomanager_epoll.cpp:110-166 | registering puts the executing fiber into the table before it yields |
| `ProtocolSteps.CallOver` | src/hook.cpp:98-119 | a call that returns takes its info and its timer with it |
| `ProtocolSteps.InfoCancelled` | src/hook.cpp:89-95 | marking a call as timed out leaves every call and timer in place |
| `ProtocolSteps.TimerFired` | src/timer.cpp:128-164 | a timer that fires leaves its call with a handle that names no timer |
| `ProtocolSteps.CountersNeverWrap` | src/scheduler.cpp:193-223 | the active and pending counts are positive whenever a worker is about to lower them |
| `ProtocolSteps.StepKeeps` | src/scheduler.cpp:152-238 | every one of the 34 steps of workers, idle fibers, calls, callbacks and outside threads keeps the invariant; only a passed stop test ends an idle fiber |
| `ProtocolSteps.StoppingIsQuiet` | src/iomanager_epoll.cpp:424-429 | while stopping holds, workers can only look around |
| `ProtocolSteps.StepKeepsStopping` | src/iomanager_epoll.cpp:424-429 | no step makes stopping false |
| `ProtocolSteps.StepKeepsInv` | src/scheduler.cpp:152-238 | the whole invariant, with ended idle fibers, is kept by every step |
| `ProtocolSteps.ReachableInv` | src/scheduler.cpp:152-238 | the invariant holds in every state of every interleaving |
| `ProtocolTheorems.OneWorkerPerFiber` | src/scheduler.cpp:193-199 | no fiber executes on two workers |
| `ProtocolTheorems.SwapInAssertionHolds` | src/fiber.cpp:122-129 | the assertion in swapIn holds: what is swapped in is INIT and is in no other place |
| `ProtocolTheorems.WaitingFiberIsInOnePlace` | src/scheduler.cpp:168-199 | a fiber that is not executing is in the queue once, or in one event, or in one worker's hands |
| `ProtocolTheorems.QueuedOncePerWait` | src/hook.cpp:76-121 | each wait in do_io ends with exactly one queueing, whether readiness, timeout or close wins |
| `ProtocolTheorems.StoppingMeansDone` | src/iomanager_epoll.cpp:424-429 | when stopping holds every fiber is dead and nothing is queued, held, registered or armed |
| `ProtocolTheorems.StoppingStays` | src/scheduler.cpp:136-141 | stopping stays true |
| `ProtocolTheorems.LeavingMeansDone` | src/scheduler.cpp:225-229 | no worker leaves run while work is outstanding |
| `ProtocolAccounts.StepLawful` | src/iomanager_epoll.cpp:346-398 | what a step queues, and that a timer leaves the set only into the queue or by a cancel and a registration the table only into the queue |
| `ProtocolAccounts.StepConserves` | src/scheduler.cpp:152-238 | what leaves the queue and the hands of the workers is what is started, and what joins them is what is submitted, expired or triggered |
| `ProtocolAccounts.RunConserves` | src/scheduler.cpp:152-238 | over every run each task has been started or is outstanding exactly as often as it entered the queue |
| `ProtocolAccounts.StoppingMeansStarted` | src/iomanager_epoll.cpp:424-429 | when stopping holds every callback and fiber has been started exactly as often as it was submitted, fired or triggered |
| `ProtocolAccounts.LeavingMeansStarted` | src/scheduler.cpp:136-141 | so it has when a worker has left |
| `ProtocolAccounts.ExpiryQueues` | src/iomanager_epoll.cpp:346-352 | a timer that expires queues its own callback, and stays exactly if it is recurring |
| `ProtocolAccounts.TriggerQueues` | src/iocontext.cpp:56-72 | an event that becomes ready or is cancelled queues whoever registered |
| `ProtocolAccounts.SubmissionQueues` | src/scheduler.h:97-112 | what is submitted is queued |
| `ProtocolAccounts.StartRuns` | src/scheduler.cpp:186-222 | what is started is what the worker held: a fiber where it was, a callback on a new fiber at its start |
| `ProtocolAccounts.TimerFate` | src/timer.cpp:128-164 | over every run a timer that is gone expired into the queue with its own callback or was cancelled, by user code or by its call |
| `ProtocolAccounts.RegistrationFate` | src/iocontext.cpp:56-72 | over every run a registration that is gone was triggered and its waiter queued |
| `ProtocolAccounts.MarkedCallEnds` | src/hook.cpp:100-108 | a call marked as timed out ends, any other tries again |
| `ProtocolAccounts.StoppingExactly` | src/iomanager_epoll.cpp:424-429 | the manager may stop exactly if it was asked to and nothing is queued, armed, registered, held or executing |
| `ProtocolAccounts.StopsOnlyIfAsked` | src/scheduler.cpp:136-141 | it never stops unasked |
| `ProtocolTheorems.TimeoutsBelongToCalls` | src/hook.cpp:101-119 | an armed timeout belongs to a call in progress, which holds its handle |
| `ProtocolTimeouts.StepKeepsTimeouts` | src/hook.cpp:76-121 | every step keeps track of every timeout that has been set |
| `ProtocolTimeouts.TimeoutStillToCome` | src/hook.cpp:87-96 | until a call is marked as timed out its timer is armed or its callback is queued, held or executing |
| `ProtocolTimeouts.TimeoutFitsCall` | src/hook.cpp:89-95 | a callback on its way will cancel the event its call waits for, or finds the call over |
| `ProtocolTimeouts.TimeoutKeptInTable` | src/hook.cpp:89-101 | no other step loses the timeout of a fiber waiting in the table |
| `ProtocolTimeouts.TimeoutCanBeLost` | src/hook.cpp:87-101 | a reachable state in which a fiber waits with a used-up timeout and nothing is left that would wake it |
| `ProtocolWaking.LostStays` | src/hook.cpp:87-107 | no step but readiness, a cancel or another call wakes a fiber whose timeout is lost, and it stays lost |
| `ProtocolWaking.LostIsLeft` | src/hook.cpp:87-107 | over every run a wait whose timeout is lost lasts until somebody else touches its event |
| `ProtocolProgress.Progress` | src/scheduler.cpp:152-238 | while a timeout still counts the workers have a step that brings the end of all their work nearer |
| `ProtocolProgress.TimeoutCanWake` | src/hook.cpp:87-107 | from every reachable state in which the timeout is not lost a run of the workers alone queues the fiber |
| `ProtocolProgress.LeftExactlyIfLost` | src/hook.cpp:87-107 | a wait is left to its event over all runs exactly if its timeout is lost |
| `ProtocolProgress.LostExactlyAtAdd` | src/hook.cpp:87-101 | adding the event leaves the wait to the event over all runs exactly if the timeout callback was over before |
| `ProtocolProgress.WaitCanBeLeft` | src/hook.cpp:87-101 | such a wait is reached |
| `ProtocolProgress.CanStop` | src/iomanager_epoll.cpp:424-429 | no reachable state is a dead end: once asked to stop, the workers alone can bring the manager to where it may, as events become ready, timers expire and user code ends |
| `IoTable.IOContext.Trigger` | src/iocontext.cpp:56-72 | clears one event bit and its context, leaves the other, and queues exactly whoever waited |
| `IoTable.Epoll.Ctl` | src/iomanager_epoll.cpp:136-140 | adding, changing and removing fail when they do not fit the interest list |
| `IoTable.RealEvents` | src/iomanager_epoll.cpp:365-371 | an error or hang-up stands for every registered event |
| `IoTable.UnregisteredReport` | src/iomanager_epoll.cpp:365-398 | exactly which reports trigger an event that is not registered; it takes an event taken away since the report |
| `IoTable.IOManager.ReportOf` | src/iomanager_epoll.cpp:340-342 | what is reported is among the registered events |
| `IoTable.UnregisteredReportArises` | src/iomanager_epoll.cpp:340-398 | such a report is received: both events reported, one cancelled, then looked at |
| `IoTable.IOManager.constructor` | src/iomanager_epoll.cpp:73-96 | a new manager has 64 empty contexts and agrees with the kernel |
| `IoTable.IOManager.Resize` | src/iomanager_epoll.cpp:415-421 | adds empty contexts behind those there, which stay |
| `IoTable.IOManager.Grow` | src/iomanager_epoll.cpp:114-125 | growing to one and a half times the descriptor always makes room for it |
| `IoTable.IOManager.Register` | src/iomanager_epoll.cpp:127-165 | fails only if the kernel refuses for a reason of its own, so adding or changing is always the right choice; then one registration more, counted, and the kernel mask agrees |
| `IoTable.IOManager.Add` | src/iomanager_epoll.cpp:110-166 | the same for any descriptor, growing the table |
| `IoTable.IOManager.Fire` | src/iomanager_epoll.cpp:389-398 | triggering some events queues the reader, then the writer, and lowers the count by as many |
| `IoTable.IOManager.Unregister` | src/iomanager_epoll.cpp:244-259 | changing or removing is always the right choice, and the invariant holds again |
| `IoTable.IOManager.Cancel` | src/iomanager_epoll.cpp:232-262 | succeeds exactly for a registered event the kernel does not refuse; queues its waiter and forgets it |
| `IoTable.IOManager.CancelAll` | src/iomanager_epoll.cpp:264-297 | the same for both events of a descriptor |
| `IoTable.IOManager.Deliver` | src/iomanager_epoll.cpp:363-398 | ignored exactly if no registered event is reported, itself or by an error; fails the assertion exactly if an unregistered event is named next to one; otherwise every registered event that is reported is unregistered with its waiter queued, and the others stay |
| `IoTable.IOManager.StoppingHasNoEvents` | src/iomanager_epoll.cpp:424-429 | when the manager may stop no bit is set and the kernel watches nothing |
| `Flat.BlockIsQuotient` | src/buffer.cpp:103-103 | blocks and offsets of positions are the quotients and remainders that the code computes |
| `Flat.BlocksForSuffice` | src/buffer.cpp:446-450 | the blocks hold the bytes and one block fewer would not |
| `Buffer.Buffer.constructor` | src/buffer.cpp:33-41 | a new buffer is empty with one block |
| `Buffer.Buffer.Init` | src/buffer.cpp:75-80 | empties the buffer and keeps its blocks |
| `Buffer.Buffer.Clear` | src/buffer.cpp:82-95 | empties the buffer and keeps the first block only |
| `Buffer.Buffer.AddCapacity` | src/buffer.cpp:438-464 | grows the list until the bytes fit and by no block more, changes nothing that was there, and gives the cursor a block when it had none |
| `Buffer.Buffer.Extend` | src/buffer.cpp:452-460 | hangs exactly so many new blocks behind the last |
| `Buffer.Buffer.Put` | src/buffer.cpp:108-118 | copying into the current block copies into the flat array at the cursor |
| `Buffer.Buffer.Advance` | src/buffer.cpp:111-124 | the cached block stays the one the cursor is in, or null at capacity |
| `Buffer.Buffer.Fill` | src/buffer.cpp:103-126 | copying block by block overwrites exactly one stretch of the flat array |
| `Buffer.Buffer.Write` | src/buffer.cpp:97-130 | the flat contents are overwritten from the cursor and extended past their end, across any number of blocks and any growth |
| `Buffer.Buffer.Read` | src/buffer.cpp:132-161 | fails exactly if too few bytes are left and then changes nothing; otherwise the destination gets exactly the next bytes and the rest of it stays |
| `Buffer.Buffer.Seek` | src/buffer.cpp:64-71 | walking the list ends at the block of the position, or runs off the list exactly from the capacity on |
| `Buffer.Buffer.SetPosition` | src/buffer.cpp:54-73 | fails exactly beyond the capacity, dereferences null exactly at it; otherwise moves the cursor, extends the size if needed and keeps the contents |
| `Buffer.Buffer.GetReadBuffers` | src/buffer.cpp:371-403 | the list covers exactly the memory of the next bytes, in order, and no more than there are |
| `Buffer.Buffer.GetWriteBuffers` | src/buffer.cpp:405-435 | makes room and lists exactly the memory of the next positions; contents and cursor stay |
| `Buffer.Buffer.PlacesHold` | src/buffer.cpp:371-435 | the memory listed for a position holds the flat byte at that position |
| `Buffer.Buffer.ReadByte` | src/buffer.h:194-202 | the next byte, or none at the end |
| `Buffer.Buffer.WriteVaruint32` | src/buffer.cpp:211-222 | writes exactly the number's base-128 bytes |
| `Buffer.Buffer.ReadVaruint32` | src/buffer.cpp:268-279 | reads what the parsing of the flat contents at the cursor gives, and ends where it ends |
| `Buffer.Buffer.WriteVarint32` | src/buffer.cpp:206-209 | the same for the zigzag code |
| `Buffer.Buffer.ReadVarint32` | src/buffer.cpp:263-266 | the same for the zigzag code |
| `Varint.ZigZagMeaning` | src/buffer.cpp:12-15 | non-negative numbers become even codes and negative ones odd codes |
| `Varint.ZigZagRoundTrip` | src/buffer.cpp:12-25 | decoding gives back every int32 |
| `Varint.ZigZagOnto` | src/buffer.cpp:12-25 | encoding gives back every uint32 |
| `Varint.VarBytesLength` | src/buffer.cpp:211-222 | how many bytes a number takes, one to five for every uint32 |
| `Varint.VarBytesFormat` | src/buffer.cpp:211-222 | the bytes are the digits of the number to base 128, the lowest first, and exactly the last is below 128 |
| `Varint.ParseMeaning` | src/buffer.cpp:268-279 | on any bytes the reader returns the number of the digits up to the first byte below 128, in 32 bits |
| `Varint.PutVarBytes` | src/buffer.cpp:213-221 | the loop writes those bytes within its five |
| `Varint.ParseVarBytes` | src/buffer.cpp:268-279 | parsing the bytes of a number from any weight gives the number |
| `Varint.ParseBounds` | src/buffer.cpp:268-279 | on any bytes the reader ends within the data, and the result fits 32 bits |
| `Varint.GatheredFits` | src/buffer.cpp:271-277 | what has been gathered has no bits where the next byte goes, so the bitwise or adds |
| `Varint.VarintSurvives` | src/buffer.cpp:211-279 | what was written at any position of any contents is read back from there, ending just behind it |
| `Buffer.VaruintsSurvive` | test/buffer_test.cpp:11-25 | any unsigned numbers written to a new buffer of any block size are read back in order from its start, and nothing is left |
| `Buffer.VarintsSurvive` | test/buffer_test.cpp:11-25 | the same for signed numbers |
| `Varint.Varint32Survives` | src/buffer.cpp:206-266 | the same for every int32 |
| `Timer.LessIsStrictTotalOrder` | src/timer.cpp:72-86 | the comparator is a strict total order, null included |
| `Timer.TimerManager.LowerBound` | src/timer.cpp:145-145 | the first timer not before the key |
| `Timer.TimerManager.Find` | src/timer.cpp:30-30 | finds every timer that is in the set, so that erasing what it finds is safe |
| `Timer.TimerManager.Insert` | src/timer.cpp:169-169 | puts the timer in its place; the set stays in order |
| `Timer.TimerManager.Store` | src/timer.cpp:167-177 | tickles exactly if the timer becomes the first and none has been issued since the last report; no wake-up is lost |
| `Timer.TimerManager.AddTimer` | src/timer.cpp:93-100 | one timer more, with its deadline modulo 2^64, and no wake-up is lost |
| `Timer.TimerManager.GetNextTimer` | src/timer.cpp:115-126 | the time to the first deadline, none for an empty set; the tickle flag is cleared and nothing is due earlier than reported |
| `Timer.DueIsHead` | src/timer.cpp:145-147 | the timers due are exactly those at the head of the set |
| `Timer.TimerManager.EndOfDue` | src/timer.cpp:144-147 | the search finds the end of the due timers whatever address it searches with |
| `Timer.TimerManager.TakeDue` | src/timer.cpp:149-150 | takes exactly the due timers out of the set |
| `Timer.TimerManager.Rearm` | src/timer.cpp:156-162 | a recurring timer goes back with its next deadline, any other is over |
| `Timer.TimerManager.RearmAll` | src/timer.cpp:153-163 | the callbacks in order, and all timers taken out are dealt with |
| `Timer.TimerManager.ListExpiredCb` | src/timer.cpp:128-164 | the callbacks of exactly the timers due now in the order of their deadlines; recurring ones start again, other due ones are over, the rest stay as they are, and no wake-up is lost unless a deadline wraps around |
| `Timer.Timer.Cancel` | src/timer.cpp:24-35 | succeeds exactly while the timer has its callback, which is while it is in the set |
| `Timer.Timer.Refresh` | src/timer.cpp:37-51 | keeps the set in order; a wake-up is lost exactly if the new deadline is before the one reported and no tickle was issued, which takes a wrap-around |
| `Timer.Timer.Reset` | src/timer.cpp:53-69 | keeps the set in order, tickles exactly if the timer becomes the first and none is out, and loses no wake-up, whatever the interval |
| `Timer.RefreshCanWrap` | src/timer.cpp:37-51 | an interval near 2^64 does lose a wake-up on refresh |
| `Bencode.AtolDecimal` | src/bencode.cpp:769-771 | every signed 64-bit number survives printing and reading |
| `Bencode.DecimalFormat` | src/bencode.cpp:894-941 | numbers are printed with the ten digits to base ten without a zero in front |
| `Bencode.IntRead` | src/bencode.cpp:755-775 | what is read as a number, in 64 bits |
| `Bencode.StrRead` | src/bencode.cpp:791-811 | what is read as a string and which lengths are refused |
| `Bencode.OnlyIntsRead` | src/bencode.cpp:755-775 | nothing but digits and signs before e is read as a number |
| `Bencode.OnlyStrsRead` | src/bencode.cpp:791-811 | nothing but a length in digits, a colon and the bytes is read as a string |
| `Bencode.BeforeTransitive` | src/bencode.cpp:57-65 | the order of keys is transitive |
| `Bencode.BeforeTotal` | src/bencode.cpp:57-65 | the order of keys is strict and total |
| `Bencode.AssignSorted` | src/bencode.cpp:255-266 | assigning to a key keeps the map in order |
| `Bencode.AssignLookup` | src/bencode.cpp:255-266 | the last assignment to a key wins and no other key is touched |
| `Bencode.ItemBack` | src/bencode.cpp:745-870 | a printed value is parsed back wherever it stands, if more follows |
| `Bencode.RootBack` | src/bencode.cpp:726-872 | a printed list or dictionary is parsed back wherever it stands |
| `Bencode.AnyOrderBack` | src/bencode.cpp:791-866 | a dictionary with its keys in any order, however often they occur, is read as the ordered map in which each key has the value of its last occurrence |
| `Bencode.Examples` | src/bencode.cpp:894-941 | the examples of BEP 3 are printed as given there |
| `Bencode.Accepted` | src/bencode.cpp:726-872 | whatever is accepted is a list or dictionary in order, without empty strings, of 64-bit numbers |
| `Bencode.RoundTrip` | src/bencode.cpp:726-941 | decoding what was encoded gives the value back and consumes every byte exactly for lists and dictionaries of such values (BEP 3, section "bencoding") |
| `Bencode.AcceptedSurvives` | src/bencode.cpp:726-941 | any accepted value survives encoding and decoding |
| `Bencode.ReadInt` | src/bencode.cpp:755-775 | reads an integer or says that there is none |
| `Bencode.ReadStr` | src/bencode.cpp:791-811 | reads a string or says that there is none |
| `Bencode.ReadItem` | src/bencode.cpp:817-866 | reads an element or returns the position of the error |
| `Bencode.Decode` | src/bencode.cpp:726-872 | terminates on every input with the value and the position behind it, or with the position of the error; never passes the end |
| `Bencode.Encode` | src/bencode.cpp:894-941 | appends the value's encoding to the stream, keys in order |
| `Md5.FoldConcat` | src/util.cpp:308-394 | whole blocks can be processed in any number of calls |
| `Md5.FoldMore` | src/util.cpp:413-441 | everything known of a message is its words and its tail |
| `Md5.PaddingIsLeast` | src/util.cpp:445-457 | the zero bytes are as few as section 3.1 of RFC 1321 allows |
| `Md5.Context.constructor` | src/util.cpp:404-411 | a new context has been given nothing |
| `Md5.Context.Body` | src/util.cpp:308-394 | the loop folds the compression over the blocks |
| `Md5.Context.Complete` | src/util.cpp:418-432 | data that fills the buffer is processed with what is in it |
| `Md5.Context.Absorb` | src/util.cpp:434-440 | whole blocks are processed and the tail is buffered |
| `Md5.Context.Update` | src/util.cpp:413-441 | after any series of updates the words, the count and the buffer depend only on the concatenated bytes |
| `Md5.PaddingOneBlock` | src/util.cpp:443-469 | the padding of a short tail ends its block |
| `Md5.PaddingTwoBlocks` | src/util.cpp:449-469 | the padding of a long tail takes one block more |
| `Md5.Context.PutCount` | src/util.cpp:460-467 | the last eight bytes are the count, low byte first |
| `Md5.Context.Pad` | src/util.cpp:443-469 | the blocks processed at the end are exactly the padded message of sections 3.1 and 3.2 of RFC 1321, in both cases |
| `Md5.Context.Final` | src/util.cpp:443-489 | the result is the digest of everything given, and the context is wiped |
| `Md5.InitialBytes` | src/util.cpp:404-411 | the initial words are those of section 3.3 of RFC 1321, byte by byte |
| `Md5.PaddingFormat` | src/util.cpp:443-469 | the padding is that of sections 3.1 and 3.2 of RFC 1321, byte by byte |
| `Md5.DigestFormat` | src/util.cpp:471-487 | the digest is the four words after the padded message, low byte first (section 3.5 of RFC 1321) |
| `Base64.CharAt` | src/util.cpp:168-168 | the table and its search are inverse to each other |
| `Base64.Alphabet` | src/util.cpp:168-168 | the characters are those of table 1 of RFC 4648 in their order |
| `Base64.IndexMeaning` | src/util.cpp:223-250 | a character is found where it stands in the table, and any other counts as 0xFF |
| `Base64.GroupBits` | src/util.cpp:181-207 | a group is the 24 bits of its bytes cut into four sextets (section 4 of RFC 4648) |
| `Base64.GroupFormat` | src/util.cpp:181-207 | three bytes are written as the four characters of their 24 bits |
| `Base64.ShortGroup` | src/util.cpp:188-203 | a short group is the group with zero bytes behind it, its tail replaced by padding |
| `Base64.QuadBits` | src/util.cpp:252-263 | any four sextets are read as three bytes of the same 24 bits |
| `Base64.EncodedLength` | src/util.cpp:170-211 | the length is four characters for every three bytes begun |
| `Base64.RoundTrip` | src/util.cpp:170-267 | decoding gives back every byte string, in both padding cases |
| `Base64.EncodeGroup` | src/util.cpp:181-207 | writes the characters of a group, padded where the input ends, inside the result string |
| `Base64.Encode` | src/util.cpp:170-211 | the loop computes the encoding within the result string's size |
| `Base64.Search` | src/util.cpp:223-250 | finds the four characters in the table, also when it ends early |
| `Base64.DecodeGroup` | src/util.cpp:252-263 | writes the bytes of a group and stops at padding |
| `Base64.Decode` | src/util.cpp:213-267 | the loop computes the decoding within the result string's size |

## Left out

- MPSegment.MPSegment.Cut: the heaviest split is claimed only if every rest of the text has a split above the floor, as the floor is what the code starts from; weights from -1000 to 0 and at most 2^32 runes are enough.
- HMMSegment.HMMSegment.Viterbi: the best tagging is claimed for one rune, or if some tagging that ends a word scores above the floor and scores are not raised by a step, as logarithms never are; what is right about texts with unknown runes that no walk over known entries covers is open.
- Unicode.WordBytes: does not model the wrap-around of 32-bit offsets, which needs a sentence of 4 GiB.
- ProtocolTheorems.StoppingStays: submissions from outside while stopping holds are not steps of the model.
- IoTable.IOManager.Deliver: says nothing about the manager after the assertion has failed.
- ProtocolSteps.HeldIsReady: holds because nobody schedules a fiber that is dead, queued or waiting, which the code does not prevent.
- ProtocolSteps.InfoCancelled: the mark is tested and set in one step, which in the code are two.
- ProtocolProgress.LostExactlyAtAdd: no other `do_io` call is about the same event; a second call's timeout would wake the fiber too.
- IoTable.IOManager.Add: registering an event twice breaks an assertion of the code and is excluded; the scheduler of the calling thread is the manager itself.
- Buffer.Buffer.SetPosition: does not model calls without movement, after which the cached block is not the cursor's.
- Buffer.Buffer.Read: excludes reading nothing with the cursor at capacity, where the code dereferences null.
- Timer.TimerManager.ListExpiredCb: reading the clock and taking the locks is one step, and the clock never runs backwards.
- Base64.Decode: requires a length divisible by four; for other lengths the code reads past the end of the string.
- Md5.Context.Body: what happens to a single block is a parameter, so the digest is relative to it.
- Trie.Trie.FindDag: the field `nextPos` of a DAG entry is never used and is not modelled.
- Floating-point rounding and the logarithms of frequencies: scores are exact reals.
- Liveness under fair scheduling: that a wake-up that is possible happens, that some worker eventually takes what is queued, idle counts and the effect of a tickle on `epoll_wait`.
- `IOManager::del` and `IOContext::reset`: `reset` always ends in its exception.
- Reuse of one callback fiber by a worker, fiber identifiers, stacks and context switching as such.
- Failures of `epoll_ctl` in the protocol's cancelling steps; in the event table they are a parameter of each method.
- Waiting for anything but events in hooked calls, such as `sleep`.
- `FullSegment`, `QuerySegment`, `PosTagger`, keyword scoring and the loading of dictionary files.
- `Buffer::read` at an arbitrary position, file transfer, and 64-bit varints, whose reader stops after five bytes.
- Bencode values made by hand with gaps in a list, `removeIndex`, and printing for humans.
- Sockets, SSL, other hooked system calls, files, compression, JSON, logging, modules, servlets, processes.
