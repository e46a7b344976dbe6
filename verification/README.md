# A verified model of gem5-CHATS

This project models, in Dafny 4.11, the most intricate logic of a gem5 fork that lets
hardware transactions forward speculative values to each other, together with the
algorithmic utilities that ship with it. Every statement is for all inputs, all runs or all
reachable states of the model.

* **Transactional memory** (`Htm*.dfy`, `Graphs.dfy`). `HtmModel` is a state machine over
  cores, blocked lines, committed memory and a commit log. A core that lacks a permission asks
  for the line. The directory knows who has accessed it under permission: it asks the owner,
  and for exclusive access the sharers too. The others, among them consumers that hold the line
  only as forwarded data, are not asked; in the model they acknowledge and notice nothing. Who
  is asked answers with an acknowledgement or with a nack that may carry speculative data; the
  requester merges the nacks and accepts, refuses, retries or aborts.
  `HtmConfig` holds the configuration space: conflict policy, power mode, forwarding
  mechanism, position numbers, cycle strategy and limits. The decisions follow the source
  function by function: `ChooseWinner` and `ShouldNack`
  (TransactionConflictManager.cc, lines 255-456), `CanProduce`, `BecomeProducer`,
  `PrioAfterSend`, `PrioAfterReceive`, `IsIllegal`, `ShouldAccept`, `TooDeep` and `Consumed`
  (TransactionInterfaceManager.cc, lines 190-953), `Granted` (lines 1046-1189), `MergeNack`
  (the L1 controller, lines 379-436), and for the stalling policy `Older`, `Wary` and `Suspect`
  (TransactionConflictManager.cc, lines 239-253, 567-592 and 656-665). `Run` executes a list of
  steps and fails where a step is not possible, so a statement about `Run` is a statement about
  every run.
  `HtmDecisions` writes out, on the states before and after a step, exactly what each of these
  decisions does, and `HtmHistory` ties the state of a transaction to the steps of its program.
* **Pipeline viewer** (`PipeQueue.dfy`, `PipeTimeline.dfy`, `Sorting.dfy`): the bounded
  reorder buffer against the stable sort of the whole trace, and the timeline layout.
* **Checkpoint migration** (`Upgrader.dfy`, `UpgradeSchedule.dfy`, `UpgradeLevels.dfy`):
  dependency resolution and the rounds that apply the scripts.
* **Trace codec** (`Varint.dfy`, `Framing.dfy`, `Text.dfy`, `DepTrace.dfy`): base-128 varints,
  length-delimited messages and the text form of dependency records.
* **Checkpoint aggregator** (`SectionNames.dfy`, `Aggregator.dfy`, `AggregateRun.dfy`,
  `AggregateResult.dfy`): the memories and configurations of several checkpoints become one.
* **Configuration scripts** (`PortBinding.dfy`, `RunControl.dfy`, `MemTest.dfy`) and **text
  tools** (`Copyrights.dfy`, `LogRoll.dfy`). `Basics.dfy` holds what they share.

Some properties one might expect are false of the code, and the project states exactly when
they hold.

* Forwarding chains can become cyclic in some accepted configurations:
  `HtmTheorems.AcyclicExactlyWhenSafe` characterises the ones in which they cannot, and
  `HtmCycle.UnsafeHasCycle` gives a run for every other.
* A cycle is harmless if one of its members is bound to abort. The stalling policy has an age
  test that is meant to see to this: who has nacked an older transaction and is nacked by an
  older one aborts. `HtmTheorems.DeadlockExactly` says when cycles remain in which nobody is
  bound to abort. The test fails in three ways, each shown by runs for all the configurations
  concerned: a consumer that forwards naively has consumed before it is warned
  (`HtmDeadlock.NaiveLocks`), and so has one whose position lets it forward to a second core
  (`HtmDeadlock.FannedLocks`); if readers forward, a nacker of the same age that arrives first
  hides an older one (`HtmDeadlock.ReadersLock`). In all other configurations it never fails
  (`HtmStalls.NoDeadlock`).
* The varint and message encoders accept values their decoders do not return:
  `Varint.RoundTrip` and `Framing.ReadBackExactly` give the exact ranges.
* Sorting the connections does not make every binding possible that exists:
  `PortBinding.SortedCanMiss` gives a list, and `PortBinding.SucceedsExactly` the condition for
  any order of visiting.
* The rounds of the checkpoint migration can miss an order that works when upgraders and
  downgraders are mixed: `UpgradeLevels.RoundsMissAnOrder` gives three scripts, and
  `UpgradeLevels.SucceedsExactly` the condition for any mix.
* Printed years are not always read back: `Copyrights.RoundTrip` gives the exact condition.

Where the code and its comments disagree the model follows the code. The header of
`cpt_upgrader.py` describes dependencies of downgraders that `ready` does not implement: with
downgraders a script only has its dependencies among the tags when its round begins, and the
order of the scripts themselves is claimed for upgraders alone. The comment in `bind_ports`
says that sorting makes exactly one direction of every pair bindable; the code relies on the
count check instead, and what that check guarantees is proved for any order of visiting.

## Model

| member | source | states |
|---|---|---|
| HtmSerial.CommittedTransactionsSerialise | gem5/src/mem/ruby/htm/TransactionInterfaceManager.cc:1046-1189 | Under every configuration and in every run, the commits form a serial history: every value a transaction read, at every read of a block it had not written, is what the earlier commits left; memory is the replay of the log, and at most one core may write a line. |
| HtmSerial.RespondKeeps | gem5/src/mem/ruby/protocol/MESI_Three_Level_HTM_umu-L0cache.sm:1136-1180 | Answering a request, with or without data, keeps the serialisability invariant, also where a consumer without permission on the block is passed over. |
| HtmSerial.GrantKeeps | gem5/src/mem/ruby/htm/TransactionInterfaceManager.cc:1046-1189 | Obtaining a line with permission, validation of a consumed block included, keeps the invariant. |
| HtmSerial.NackKeeps | gem5/src/mem/ruby/protocol/MESI_Three_Level_HTM_umu-L0cache.sm:544-591 | Receiving the merged nack (consume, refuse, retry, drop) keeps the invariant; what it does to the requester is in HtmDecisions.NackedExactly. |
| HtmSerial.CommitKeeps | gem5/src/mem/ruby/htm/TransactionInterfaceManager.cc:1344-1574 | A commit keeps the invariant: every value the transaction read is still the committed one. |
| HtmSerial.AccessKeeps | gem5/src/mem/ruby/htm/TransactionInterfaceManager.cc:780-822 | Transactional reads and writes, of consumed blocks too, keep the invariant. |
| HtmSerial.OtherStepsKeep | gem5/src/mem/ruby/htm/TransactionInterfaceManager.cc:1856-1961 | Begin, request, eviction, doom and abort keep the invariant. |
| HtmHistory.StateIsHistory | gem5/src/mem/ruby/htm/TransactionInterfaceManager.cc:1197-1275 | In every run the state of a core's transaction (attempt, mode, retries, time of the first attempt, values written, blocks read) is what the steps of its own program add up to, whatever the other cores do. |
| HtmHistory.ReadsAreObserved | gem5/src/mem/ruby/htm/TransactionInterfaceManager.cc:780-822 | In every run the values recorded as read are all the values the program loaded in this attempt from blocks it had not written. |
| HtmHistory.LoadsAreCommitted | gem5/src/mem/ruby/htm/TransactionInterfaceManager.cc:1046-1189 | Serialisability as a program sees it: in every run, every value a transaction loaded from a block it had not written, at whatever moment and from whomever, is the committed value of the block when it commits. |
| HtmHistory.CommitsWhatWasWritten | gem5/src/mem/ruby/htm/TransactionInterfaceManager.cc:1344-1574 | In every run a commit gives each block the last value its program wrote since it began, changes no other block, and logs exactly these writes. |
| HtmHistory.AbortsWithoutTrace | gem5/src/mem/ruby/htm/TransactionInterfaceManager.cc:1796-1961 | An abort leaves memory and the log alone, and the core without the blocks it had written or held as forwarded data. |
| HtmChains.MergedIsLowest | gem5/src/mem/ruby/protocol/MESI_Three_Level_HTM_umu-L1cache.sm:379-436 | The merged nack has a position no higher than any nack, and data only if every nack had data. |
| HtmChains.AnswerShape | gem5/src/mem/ruby/htm/TransactionInterfaceManager.cc:221-598 | What an answer can change: only the position and the set of consumers, and those only when data are forwarded by a winner that may produce; the nack carries the sender's new position. When that is the case is in HtmDecisions.AnsweredExactly. |
| HtmDecisions.AnsweredExactly | gem5/src/mem/ruby/htm/TransactionInterfaceManager.cc:221-598 | For every state and request: who nacks, if and only if; data are sent if and only if the written-out conditions hold (not retrying, the kind of block, rank of a consumer, room for a consumer), and the sender aborts instead exactly under requester-wins; the value, the position, the mode and the age sent, and everything the answer changes in the core. |
| HtmDecisions.WithheldWhileWriting | gem5/src/mem/ruby/htm/TransactionInterfaceManager.cc:272-303 | In every run, where it is forbidden, no transaction outside power mode sends data or records a consumer while a write is in flight. |
| HtmDecisions.ChatsWithholds | gem5/gem5_path/scripts/CHATS/config.chats.main.py:39-50 | In no run of the CHATS configuration are data sent, or is a consumer recorded, while a write is in flight. |
| HtmDecisions.MergedExactly | gem5/src/mem/ruby/protocol/MESI_Three_Level_HTM_umu-L1cache.sm:379-436 | The merged nack has the lowest position, the time and the core of the earliest nacker (the first of several), a power mark if any nack had one, and the data of the first nack if all had data. |
| HtmDecisions.NackedExactly | gem5/src/mem/ruby/htm/TransactionInterfaceManager.cc:600-953 | For every state: whether the nacks for a request are dropped, answered by a new request, taken as data or refused, and everything they change in the requester, its abort included. |
| HtmDecisions.NackEndsIt | gem5/src/mem/ruby/htm/TransactionConflictManager.cc:690-706 | In every run under requester-loses or power, a nacked transaction holds the block as forwarded data, has asked again, or is doomed. |
| HtmDecisions.StallsExactly | gem5/src/mem/ruby/htm/TransactionConflictManager.cc:656-689 | In every run under the stalling policy, a nacked transaction stays undoomed if and only if it asks again, or the age test does not catch it and it takes data that fit or gets none for a block it does not hold as forwarded data. |
| HtmDecisions.GrantedExactly | gem5/src/mem/ruby/htm/TransactionInterfaceManager.cc:1046-1189 | A request nobody nacks gives the permission; a block held as forwarded data is validated, and its holder is doomed if and only if the value differs. |
| HtmDecisions.IssuedExactly | gem5/src/mem/ruby/protocol/MESI_Three_Level_HTM_umu-L0cache.sm:959-1105 | A request goes to all other cores with the transaction's position, mode and age, or with none and the present time outside a transaction. |
| HtmDecisions.EvictedExactly | gem5/src/mem/ruby/htm/TransactionInterfaceManager.cc:2814-2909 | Losing a block dooms a transaction if and only if it has written the block or holds it as forwarded data. |
| HtmChains.ChainInvAlways | gem5/src/mem/ruby/htm/TransactionInterfaceManager.cc:600-768 | In every run the recorded producers are present or past transactions of other cores and the power-mode rules hold. |
| HtmChains.PowerNeverConsumes | gem5/src/mem/ruby/htm/TransactionInterfaceManager.cc:1721-1724 | In no run has a power transaction ever consumed data, validated since or not: the panic for that case is unreachable. |
| HtmAcyclic.SafeInvAlways | gem5/src/mem/ruby/htm/TransactionInterfaceManager.cc:451-497 | In a safe configuration every run keeps producers above their consumers, or producers and consumers apart. |
| HtmAcyclic.PositionRises | gem5/src/mem/ruby/htm/TransactionInterfaceManager.cc:871-917 | Along any path of waiting transactions the positions rise strictly. |
| HtmAcyclic.SafeIsAcyclic | gem5/src/mem/ruby/htm/TransactionInterfaceManager.cc:871-953 | The invariant of a safe configuration excludes cycles of waiting transactions. |
| HtmCycle.UnsafeHasCycle | gem5/src/mem/ruby/htm/TransactionInterfaceManager.cc:221-421 | For every other accepted configuration there is a run of two transactions that each consumed from the other; unless requests are stalled, neither of them is doomed if one block may be consumed. |
| HtmStalls.StallInvAlways | gem5/src/mem/ruby/htm/TransactionConflictManager.cc:567-592 | Under the stalling policy with owners only forwarding, and with numeric positions to one core only, in every run at most one core offers data for a request, a running producer has recorded its consumer, and whoever forwarded data to an older transaction is warned and has no older producer. |
| HtmStalls.NoDeadlock | gem5/src/mem/ruby/htm/TransactionConflictManager.cc:656-665 | The invariant excludes cycles of transactions none of which is doomed: the youngest would have to abort. |
| HtmDeadlock.NaiveLocks | gem5/src/mem/ruby/htm/TransactionInterfaceManager.cc:311-316 | Under the stalling policy with naive forwarding, numeric positions or not, two transactions can wait for each other, neither doomed. |
| HtmDeadlock.ReadersLock | gem5/src/mem/ruby/protocol/MESI_Three_Level_HTM_umu-L1cache.sm:379-436 | Under the stalling policy with forwarding by readers, two transactions can wait for each other, neither doomed: a nacker of the same age hides the older one. |
| HtmDeadlock.FannedLocks | gem5/src/mem/ruby/htm/TransactionInterfaceManager.cc:323-409 | Under the stalling policy with unguarded numeric positions the same happens, without readers, whenever a transaction may forward to a second core. |
| HtmTheorems.BlocksBounded | gem5/src/mem/ruby/htm/TransactionInterfaceManager.cc:724-745 | In every run a transaction that is not doomed holds at most the allowed number of unvalidated blocks. |
| HtmTheorems.DeadlockExactly | gem5/src/mem/ruby/htm/TransactionConflictManager.cc:567-665 | For every accepted configuration, some run reaches a cycle of waiting transactions none of which is doomed if and only if the configuration is not safe, one block may be consumed and, under the stalling policy, forwarding is naive, by readers, or by numeric position to a second core. |
| HtmTheorems.AcyclicExactlyWhenSafe | gem5/src/mem/ruby/htm/TransactionInterfaceManager.cc:190-953 | Doomed transactions included until they abort, waiting is free of cycles in every run if and only if the configuration has no forwarding, chains of depth one, ranked positions with a cycle strategy, or forwarding by power transactions only. |
| HtmTheorems.EveryChainHasAHead | gem5/src/mem/ruby/htm/TransactionInterfaceManager.cc:1278-1306 | In a safe configuration every transaction leads along its producers to one that waits for nobody. |
| HtmTheorems.ChainsAreBounded | gem5/src/mem/ruby/htm/TransactionInterfaceManager.cc:740-768 | With ranked positions and depth limit D, chains of transactions that are not doomed have at most 2D + 2 members in every run, and at most 2D + 3 under the stalling policy. |
| HtmTheorems.FanOutBounded | gem5/src/mem/ruby/htm/TransactionInterfaceManager.cc:221-421 | Outside power mode no transaction forwards to more cores than its mechanism allows, in every run. |
| HtmTheorems.PositionsNear | gem5/src/mem/ruby/htm/TransactionInterfaceManager.hh:42-43 | After k steps every position lies between -k and k, so the position numbers stay far from the reserved smallest int. |
| HtmCommit.ProducersEndFirst | gem5/src/mem/ruby/htm/TransactionInterfaceManager.cc:1278-1306 | When a transaction can commit, every transaction whose data it ever consumed has ended or is bound to abort. |
| HtmCommit.CommitInvAlways | gem5/src/mem/ruby/htm/TransactionInterfaceManager.cc:1046-1189 | In every run a producer that is not doomed has accessed the forwarded blocks under permission, and every such producer of a consumer that is not doomed is still waited for. |
| HtmForward.ForwardedValueCommits | gem5/gem5_path/scripts/CHATS/config.chats.main.py:39-50 | Under the CHATS configuration there is a run in which a transaction reads an uncommitted value, validates it after its producer has committed, and commits with it. |
| HtmForward.ValidationDecides | gem5/src/mem/ruby/htm/TransactionInterfaceManager.cc:1046-1189 | For every value there is a run in which the producer aborts and the block is committed with that value while the consumer of the old data is not asked and goes on; its validation dooms it exactly if the values differ. |
| Sorting.SortIsTheStableSort | gem5/util/o3-pipeview.py:162-166 | The sort is the only list that is ordered by key and keeps equal keys in their order. |
| PipeQueue.PrintQueue.QueueInst | gem5/util/o3-pipeview.py:154-159 | Queueing appends and, above the upper threshold, drains to the lower one. |
| PipeQueue.PrintQueue.PrintInsts | gem5/util/o3-pipeview.py:162-184 | Draining sorts, takes from the front down to the threshold and prints exactly the taken instructions that pass the filter. |
| PipeQueue.PrintTrace | gem5/util/o3-pipeview.py:154-184 | A whole run prints the filter of everything taken, in the order it was taken: each instruction as often as it arrived if its sequence number, fetch tick and retirement are within the bounds that are on, and otherwise not at all. |
| PipeQueue.EachTakenOnce | gem5/util/o3-pipeview.py:154-184 | Whatever the order of arrival and the thresholds, every instruction is taken exactly once. |
| PipeQueue.BoundedDisorderIsSorted | gem5/util/o3-pipeview.py:45-50 | If no instruction arrives after more than the lower threshold of larger ones, the run takes the stable sort of the whole trace. |
| PipeQueue.LowerThresholdIsExact | gem5/util/o3-pipeview.py:45-50 | For thresholds min <= max the run sorts every trace of disorder at most m if and only if m <= min. |
| PipeTimeline.Events | gem5/util/o3-pipeview.py:252-259 | The events collected for a line are exactly the stages on it. |
| PipeTimeline.DrawLine | gem5/util/o3-pipeview.py:260-279 | The characters written, piece by piece, are the specified line, whose letters LetterAt and EventInOneLine place. |
| PipeTimeline.DrawInst | gem5/util/o3-pipeview.py:223-279 | All lines are drawn; an index error occurs exactly when the drawing is compact and no stage is on it. |
| PipeTimeline.OneLineWhenCompact | gem5/util/o3-pipeview.py:235-238 | There is one line if and only if the instruction fits in one window. |
| PipeTimeline.DrawnOnce | gem5/util/o3-pipeview.py:252-259 | With fetch first, every stage reached is on exactly one line, given by division. |
| PipeTimeline.FetchIsDrawn | gem5/util/o3-pipeview.py:252-259 | An instruction fetched first has its fetch on the first line. |
| PipeTimeline.LineLength | gem5/util/o3-pipeview.py:260-279 | A line has width plus drawn events minus distinct columns characters. |
| PipeTimeline.LineContent | gem5/util/o3-pipeview.py:260-279 | Without shared columns each column holds its event's letter, or a dot, which is an equals sign if the instruction never retired. |
| PipeTimeline.EventInOneLine | gem5/util/o3-pipeview.py:252-279 | With fetch first, the letter of a reached and shown stage is in the text of its own line and of no other, shared columns included; its column is tick / cycle modulo the width, and without shared columns the character there is the letter. |
| PipeTimeline.CellColumn | gem5/util/o3-pipeview.py:256-277 | The column of every stage is tick / cycle modulo the width. |
| PipeTimeline.ColumnOnLine | gem5/util/o3-pipeview.py:247-259 | The cycle of an event's column, counted from the start of its line, contains its tick; only in the compact form is it counted from the start of the next line. |
| PipeTimeline.LetterAt | gem5/util/o3-pipeview.py:260-279 | Where each letter stands: at its column plus the number of letters before it that share a column. |
| PipeTimeline.StagesInOrder | gem5/util/o3-pipeview.py:260 | The letters are in the order of the ticks within a line, and of the names of the stages where ticks are equal. |
| PipeTimeline.RanksAreAlphabetical | gem5/util/o3-pipeview.py:194-221 | The order used for equal ticks is the alphabetical order of the names of the stages. |
| PipeTimeline.LetterOfName | gem5/util/o3-pipeview.py:194-221 | Every stage is drawn as a letter of its name, and no two stages alike. |
| PipeTimeline.LastLineUsed | gem5/util/o3-pipeview.py:235-238 | With fetch first, the last line has an event: there are no more lines than needed. |
| Upgrader.AddForward | gem5/util/cpt_upgrader.py:171-183 | Reversing forward dependencies succeeds exactly when all of them exist, and adds the script to the dependencies of exactly those. |
| Upgrader.Audit | gem5/util/cpt_upgrader.py:171-183 | The audit passes exactly when every dependency exists. |
| Upgrader.Resolve | gem5/util/cpt_upgrader.py:171-183 | Resolution, in any order, succeeds exactly when all dependencies, forward ones included, exist; the result has every forward dependency reversed and is closed. |
| UpgradeSchedule.ApplyRound | gem5/util/cpt_upgrader.py:144-152 | A round gives the same tags in whatever order its scripts run, runs each once, and never removes an absent tag. |
| UpgradeSchedule.ApplyAll | gem5/util/cpt_upgrader.py:242-254 | For any mix of kinds: each missing script runs at most once, exactly once on success, in at most as many rounds as scripts; every dependency of each is among the tags when its round begins; a run that gives up has reached tags that lack a dependency of every script left; with upgraders only, each runs after its dependencies. |
| UpgradeSchedule.FinalTags | gem5/util/cpt_upgrader.py:242-254 | A run that finishes ends with the tags plus all upgrades minus all downgrades. |
| UpgradeSchedule.RunIsComplete | gem5/util/cpt_upgrader.py:242-254 | After a run that finishes nothing is missing, and a second run changes nothing. |
| UpgradeSchedule.CycleNeverDone | gem5/util/cpt_upgrader.py:138-142 | A cycle among the missing upgraders makes the run impossible. |
| UpgradeSchedule.ImpossibleHasCycle | gem5/util/cpt_upgrader.py:247-250 | An impossible run exhibits a cycle among the missing upgraders. |
| UpgradeSchedule.SucceedsWhenAcyclic | gem5/util/cpt_upgrader.py:242-254 | With upgraders only, the run finishes if and only if the dependencies among the missing tags are acyclic. |
| UpgradeLevels.SucceedsExactly | gem5/util/cpt_upgrader.py:138-254 | For any mix of upgraders and downgraders, the run finishes if and only if the missing scripts can be put on levels: each on the first level above the missing upgrades it depends on, not above a tag it depends on that is to be removed, and with every other dependency present. |
| UpgradeLevels.RoundsMissAnOrder | gem5/util/cpt_upgrader.py:244-254 | Three scripts for which the run gives up although they can be applied one by one, each with its dependencies present. |
| Varint.EncodeVarint32 | gem5/util/protolib.py:143-155 | The encoder appends the base-128 groups of the number, lowest first. |
| Varint.DecodeVarint32 | gem5/util/protolib.py:98-126 | The decoder agrees with its specification on every input, errors included, and leaves exactly the unread rest. |
| Varint.DecodeMeans | gem5/util/protolib.py:98-126 | A varint of at most ten bytes decodes to its little-endian value, masked to 32 bits with the sign rule above 2^63. |
| Varint.DecodeExactly | gem5/util/protolib.py:98-126 | For any bytes: a number exactly if they begin with a varint of at most ten bytes, the end of the file exactly if fewer than ten bytes all announce another, and failure exactly if ten do. |
| Varint.MaskedMeans | gem5/util/protolib.py:119-122 | The mask keeps the number modulo 2^32, from 0 on below 2^63 and below 0 otherwise. |
| Varint.DecodeFromStops | gem5/util/protolib.py:98-126 | Decoding stops within ten bytes. |
| Varint.DecodeEncoded | gem5/util/protolib.py:143-155 | Decoding an encoded number, with anything behind it, gives the masked number and leaves the rest; above ten groups it fails. |
| Varint.RoundTrip | gem5/util/protolib.py:98-155 | The decoder returns the encoded number if and only if it is below 2^32. |
| Framing.EncodeMessage | gem5/util/protolib.py:157-163 | Encoding appends the length and the message. |
| Framing.DecodeMessage | gem5/util/protolib.py:128-141 | Decoding agrees with its specification on every input, the length -1 that reads the rest and the lower ones that are refused included, and leaves the rest. |
| Framing.DecodeAll | gem5/util/protolib.py:128-141 | Repeated decoding returns the specified messages of every input, and says whether it ended by an exception. |
| Framing.ReadAllEncoded | gem5/util/protolib.py:128-163 | The concatenated encodings read back as the messages before the first empty one, and as all messages if none is empty; nothing is raised. |
| Framing.ReadBackExactly | gem5/util/protolib.py:128-163 | A message followed by anything is read back, with the rest left, if and only if it is not empty and shorter than 2^32, or nothing follows and its length decodes as -1. |
| Framing.BrokenOff | gem5/util/protolib.py:128-141 | A file that breaks off inside a length yields no message; one that breaks off behind a length yields the cut message as if it were whole. |
| DepTrace.PrintRecord | gem5/util/decode_inst_dep_trace.py:154-203 | The fields written one by one make the specified line. |
| DepTrace.ReadRecord | gem5/util/encode_inst_dep_trace.py:147-194 | The parser agrees with its specification on every line, failures included. |
| DepTrace.LineReadBack | gem5/util/decode_inst_dep_trace.py:154-203 | A printed record is read back, with absent pc as 0 and absent weight as 1, if and only if it is printable. |
| DepTrace.FileReadBack | gem5/util/encode_inst_dep_trace.py:147-194 | A file of printable records is read back record by record, in order. |
| SectionNames.RemoveInsert | gem5/util/checkpoint_aggregator.py:64-67 | Removing as many characters after every "cpu" as were inserted gives the name back: no new "cpu" arises. |
| SectionNames.IndexWidth | gem5/util/checkpoint_aggregator.py:56 | All checkpoint numbers are padded to one width. |
| SectionNames.RenameInjective | gem5/util/checkpoint_aggregator.py:56-67 | Two different pairs of checkpoint and "cpu" section never get the same name, whatever digits the names had. |
| SectionNames.PaddingIsNeeded | gem5/util/checkpoint_aggregator.py:56 | Without the padding two sources can get the same name. |
| Aggregator.CopyPages | gem5/util/checkpoint_aggregator.py:95-109 | Reading page by page copies the wanted pages, or all there is of a short image. |
| Aggregator.StartExact | gem5/util/checkpoint_aggregator.py:95-109 | A checkpoint's pages start where its addresses are moved to if and only if every earlier image holds all its pages. |
| Aggregator.Relocated | gem5/util/checkpoint_aggregator.py:69-72 | The byte at the moved address in the merged store is the byte at the old address in the image. |
| Aggregator.FramesDisjoint | gem5/util/checkpoint_aggregator.py:69-72 | Moved addresses of different checkpoints never meet. |
| Aggregator.Pad | gem5/util/checkpoint_aggregator.py:118-126 | Padding appends dummy pages only, as few as reach the wanted size. |
| Aggregator.MoveItems | gem5/util/checkpoint_aggregator.py:69-74 | The items are copied with moved addresses; it fails exactly when an address is no number. |
| Aggregator.LookupMoved | gem5/util/checkpoint_aggregator.py:69-74 | Looking up a key in the moved items gives the moved address, or the old value for any other key. |
| Aggregator.MergeSection | gem5/util/checkpoint_aggregator.py:64-89 | One section is renamed and moved, kept, counted for its tick or skipped as the source prescribes. |
| Aggregator.MergeSections | gem5/util/checkpoint_aggregator.py:64-89 | All sections of a checkpoint are merged without ever meeting a name twice; it fails exactly on an unreadable section. |
| Aggregator.MergedNames | gem5/util/checkpoint_aggregator.py:64-89 | The names a checkpoint contributes are distinct and each comes from one of its sections. |
| Aggregator.RenderedInjective | gem5/util/checkpoint_aggregator.py:64-67 | Different merged names, the three fixed ones included, are written as different texts. |
| AggregateRun.Collect | gem5/util/checkpoint_aggregator.py:58-112 | The loop over the checkpoints fails exactly when one of them is unusable. |
| AggregateRun.Aggregate | gem5/util/checkpoint_aggregator.py:41-142 | The merge succeeds exactly on mergeable inputs and then writes the specified configuration and store; what a reader finds in them is in the rows of AggregateResult. |
| AggregateRun.NoNameTwice | gem5/util/checkpoint_aggregator.py:64-89 | The section names of the merged configuration, as they are written, are pairwise different texts. |
| AggregateRun.AddressKeepsMeaning | gem5/util/checkpoint_aggregator.py:58-112 | The address in a "cpu" section of any checkpoint is found, moved, in the section with its new name, and the final store holds there the byte it pointed to. |
| AggregateRun.SizeExact | gem5/util/checkpoint_aggregator.py:114-131 | The recorded size is at least the wanted size, and equals the size of the store if and only if every image holds its pages. |
| AggregateRun.LatestOfAll | gem5/util/checkpoint_aggregator.py:81-84 | The merged tick is the latest tick of all checkpoints, or 0. |
| AggregateResult.TotalsOfAll | gem5/util/checkpoint_aggregator.py:114-133 | Looked up in the output: pagePtr is the sum of the page counts of the checkpoints, nextPID their number, and curTick the latest tick recorded in any of them, or 0. |
| AggregateResult.CpuSections | gem5/util/checkpoint_aggregator.py:64-77 | Looked up in the output: each "cpu" section of any checkpoint is there under its new name, with its address moved by the pages of the checkpoints before, the number of its checkpoint as M5_pid if it is the map of open files, and every other item unchanged. |
| AggregateResult.FdMapExactly | gem5/util/checkpoint_aggregator.py:76 | A map of open files is a section whose name ends in "workload", one character, "FdMap256". |
| AggregateResult.KeptUnchanged | gem5/util/checkpoint_aggregator.py:85-131 | Looked up in the output: every other section of the last checkpoint is there unchanged, except for the size of the store. |
| PortBinding.BindPorts | gem5/configs/example/read_config.py:298-335 | The pass with one counter per port agrees with the pass that counts the bound endpoints, in any order of visiting, failures included. |
| PortBinding.GreedyInOrder | gem5/configs/example/read_config.py:324-332 | Every port is bound at indices 0, 1, 2, ... in the order of binding. |
| PortBinding.EndpointsDistinct | gem5/configs/example/read_config.py:324-332 | No endpoint is bound twice. |
| PortBinding.CheckIsSound | gem5/configs/example/read_config.py:334-337 | If the half-count check passes, exactly one direction of every connection was bound. |
| PortBinding.SymmetricNeverMissing | gem5/configs/example/read_config.py:302-307 | A list with both directions never names an unknown port. |
| PortBinding.SucceedsExactly | gem5/configs/example/read_config.py:324-339 | For any order of visiting, the sorted one included, the pass succeeds if and only if some complete binding is a subsequence of that order. |
| PortBinding.SortedCanMiss | gem5/configs/example/read_config.py:314-339 | A sorted list of four connections of which the pass binds three although a complete binding exists. |
| PortBinding.ReachableBindings | gem5/configs/example/read_config.py:314-337 | The bindings some order of visiting produces are exactly the complete ones. |
| RunControl.Simulator.Simulate | gem5/configs/common/Simulation.py:240-244 | A call advances the tick by at most its limit, by exactly its limit when the limit was reached, and uses up one event. |
| RunControl.RunTo | gem5/configs/common/Simulation.py:240-244 | All checkpoints of the guest are run past; the wanted tick is never passed, and is reached exactly when the next event is no other exit. |
| RunControl.RunPeriod | gem5/configs/common/Simulation.py:260-264 | The end of a period is reached exactly when only checkpoints of the guest come before; the reason kept is that of the first call. |
| RunControl.FitIsGreatest | gem5/configs/common/Simulation.py:253-258 | The number of periods that fit is the greatest within max_checkpoints and maxtick. |
| RunControl.ScheduleAt | gem5/configs/common/Simulation.py:260-262 | The checkpoint number k is at when + k * period. |
| RunControl.ScriptCheckpoints | gem5/configs/common/Simulation.py:235-267 | The number of checkpoints is exact for every list of events: none unless the first tick is reached past guest checkpoints, then one for each period that fits, up to the first that ends early. They are at when, when + period, ..., none after maxtick; if no call ends early the run ends at maxtick, or at the last checkpoint if max_checkpoints is reached. |
| RunControl.HandOver | gem5/configs/common/Simulation.py:443-448 | After a hand-over the exchanged pairs are ready again: the new first CPUs are the active ones. |
| RunControl.RepeatSwitch | gem5/configs/common/Simulation.py:434-452 | No hand-over is refused, time never passes maxtick, the loop ends, and the number of switches of an undisturbed run is exact. |
| MemTest.NumTesters | gem5/configs/example/memtest.py:105-116 | The count is the sum of the tester entries weighted by the product of the fan-outs before them. |
| MemTest.MakeProtos | gem5/configs/example/memtest.py:179-203 | There is one prototype per level, each the scaled previous one. |
| MemTest.ProtoAt | gem5/configs/example/memtest.py:183-203 | A prototype's size, associativity and miss registers are the first one's times the fan-outs, its tag latency times a power of ten, and the kind of inclusion and the writeback of clean lines alternate from level to level. |
| MemTest.LatencyAt | gem5/configs/example/memtest.py:183-203 | The data and the response latency are the first one's times a power of ten. |
| MemTest.Builder.Enter | gem5/configs/example/memtest.py:228-249 | A new subsystem gets the next index of its level and the testers and caches of its level. |
| MemTest.Builder.MakeCacheLevel | gem5/configs/example/memtest.py:225-286 | The recursion adds, on every level, the number of subsystems and testers of the tree, keeps the numbering, and fails exactly at level 0 without a cache. |
| MemTest.BelowIsProduct | gem5/configs/example/memtest.py:262-268 | The number of subsystems on a level is the product of the fan-outs nearer memory. |
| MemTest.TestersAgree | gem5/configs/example/memtest.py:105-116 | The recursion creates exactly the counted testers. |
| MemTest.BuildTree | gem5/configs/example/memtest.py:179-289 | For every accepted specification the tree has the counted testers and, on each level, indices 0 to k - 1 in order, k being the product of the fan-outs nearer memory; every subsystem has the testers and the caches of its level. |
| Copyrights.DateStr | gem5/util/find_copyrights.py:175-199 | The loop prints the runs of the sorted years; it fails exactly on no years. |
| Copyrights.ProcessDates | gem5/util/find_copyrights.py:98-116 | The reader collects the years of every piece and skips what it cannot read. |
| Copyrights.SpacesAtDash | gem5/util/find_copyrights.py:98-108 | White space around the dash does not change whether and which range is matched, whatever the text. |
| Copyrights.PieceAtDash | gem5/util/find_copyrights.py:98-116 | Nor does it change the years read of a piece, unless the dash is a sign. |
| Copyrights.SpacesAround | gem5/util/find_copyrights.py:98-116 | White space around the pieces of a list does not change the years read. |
| Copyrights.BlankPiece | gem5/util/find_copyrights.py:98-116 | A blank piece adds no year. |
| Copyrights.RunsAreMaximal | gem5/util/find_copyrights.py:186-197 | The runs are in increasing order with a gap between any two. |
| Copyrights.RunsDenoteAll | gem5/util/find_copyrights.py:186-197 | The runs cover exactly the years. |
| Copyrights.Shortest | gem5/util/find_copyrights.py:186-197 | No shorter list of ranges denotes the same years. |
| Copyrights.MatchText | gem5/util/find_copyrights.py:98-108 | A printed range is matched exactly when its first year has four digits, and then only four digits of its last year are read. |
| Copyrights.LostYear | gem5/util/find_copyrights.py:98-116 | The last year of a range with an end outside four digits is lost. |
| Copyrights.RoundTrip | gem5/util/find_copyrights.py:98-199 | The years are read back if and only if every run of two or more starts and ends with a four-digit year. |
| Copyrights.FourDigitYears | gem5/util/find_copyrights.py:98-199 | Every non-empty set of four-digit years is read back. |
| Copyrights.SortedYears | gem5/util/find_copyrights.py:176-177 | The sorted list of a set is strictly increasing and has the same years. |
| LogRoll.Roll.DumpLines | gem5/util/logroll.py:52-56 | A dump is the lines from the index on, then the lines before it. |
| LogRoll.Roll.Fill | gem5/util/logroll.py:70-76 | The first loop answers every signal with all lines read and ends with a full buffer or at the end of the input. |
| LogRoll.Roll.Wrap | gem5/util/logroll.py:78-79 | The second loop answers every signal with the last lines. |
| LogRoll.Roll.Run | gem5/util/logroll.py:62-81 | For every input, number of lines and pattern of signals, each dump and the final one are exactly the last lines read so far. |
| LogRoll.Shows | gem5/util/logroll.py:52-56 | In both phases a dump shows the last lines in order. |
| LogRoll.Overwrite | gem5/util/logroll.py:78-79 | Writing over the oldest line and moving on keeps the buffer in order. |

## Left out

- SimObject construction and wiring, sweep scripts and option parsing: they only pass values on.
- The cache controllers below the transaction level: a blocked line stands for the directory, and timing, message loss and bank conflicts are not modelled.
- Several requests for one line at a time: the directory stalls them, so a line has at most one outstanding request.
- The position-based and the hybrid stalling policies and the stalling of requests outside transactions, eager versioning with its log, the lazy commit arbiter, false-sharing masks and escape actions of the transactional memory.
- The limit of naive forwarding on the number of validations: such aborts are among the dooms that may happen at any time.
- BecomeProducer: does not model the refusal to forward just above the reserved smallest int (TransactionInterfaceManager.cc, lines 318-323), because positions are unbounded.
- EvictedExactly: evictions of blocks only read are the tolerated ones; where the configuration forbids them, the abort is one of the dooms that may happen at any time.
- Integer overflow of position numbers: positions are unbounded, and PositionsNear bounds them by the number of steps; the depth test on the reserved smallest int is taken not to exceed the limit.
- Assertions of the simulator that fail: the step is then not possible in the model.
- Liveness of transactions: a run may abort and retry for ever.
- Legacy version numbers of checkpoints and the file level of cpt_upgrader.py: tags are read from one section and written to another, so completeness is stated on tag sets.
- Protobuf field serialisation: a message is a sequence of bytes.
- Signs, underscores and white space that Python's int() accepts in numbers of trace lines and year lists.
- Records with virtual address or address-space fields: the text form has no place for them.
- Gzip, directories and byte against text mode in checkpoint_aggregator.py; the numbers in its sections are natural numbers.
- Self-connections and repeated connections in bind_ports: the soundness of its check is stated without them.
- Runs with infinitely many guest checkpoints: the list of events is finite, so every statement holds for every finite part of such a run.
- Checking of the memory-tester options and the random tree: the accepted specifications are a precondition.
- Signals that reach logroll.py between storing a line and moving the index.
- Colour codes in the pipeline viewer, and its other columns.
- gem5img.py and the other utilities.
