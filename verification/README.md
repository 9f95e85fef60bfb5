# Voter, planner and mapper

A Dafny model of the redundancy voter, the A* planner and the map replication of a robot controller
framework. `dafny verify dfyconfig.toml` checks all of it.

**The redundancy voter** runs one, two or three replicas of a controller (SMR, DMR, TMR). It keeps a
ring of bytes for each replica and output pipe, compares the shortest common prefix, writes what was
agreed to the outside and advances all rings together. A replica that disagrees or is late is killed and
replaced by a clone of another one, whose rings and pending input it takes over.

- `VoteBuff.dfy`: the ring of `voter/vote_buff.c`, in place, as a byte queue.
- `VoterModel.dfy`: the voter as a state machine on values: `State`, `Event`, `Step`, `Run`, and `Pass`,
  the events of one pass of the main loop.
- `VoterRuns.dfy`: what holds of every run of that machine; the main theorem is `Masking`.
- `VoterInputs.dfy`: what the replicas read in every run: each is given the whole external input, across
  restarts (`InputDelivered`); a cold restart resends the last chunk (`ColdInput`).
- `VoterOutputs.dfy`: what one or two replicas get out, as exact books of every run (`SingleOutput`,
  `DoubleOutput`).
- `VoterTimeout.dfy`: whom a timeout restarts, and from whom (`TimeoutChoice`, `TimeoutHeals`).
- `VoterWatch.dfy`: when the watchdog runs (`WatchRun`).
- `VoterPass.dfy`: which events one pass of the main loop consists of, and in which order (`PassIsDue`).
- `Ranking.dfy`: how replicas are ranked for scheduling.
- `Voter.dfy`: the C functions as methods on heap rings. Every method is proved to do to its `View()`
  what the function of the same name in `VoterModel` does, and `DoOneUpdate` to be a `Run` of `Pass`.
- `VoterMasking.dfy`: the same pass under the fault hypothesis, which it keeps for the next one.

The hypothesis under which TMR masks faults is `FaultRun`: at each moment at most one replica is
suspect and may write anything; the others continue their reference stream from where their ring ends
(so a clone continues from the end of the ring that was copied for it) in chunks that fit their ring
(a chunk that does not fit is dropped whole by `pipeToBuff`); a timeout does not clone the suspect. A
fault may strike any replica whenever the other two are healthy, so faults may follow each other
without end. Everything else is arbitrary: the number of pipes, the ring capacity, the chunks, the
interleaving, the timeouts, the priorities, the reference streams.

**The planner** of `controllers/a_star.c` is a best-first search with a stable sorted list, a closed
set that is never reopened, back links and a selective cleanup.

- `Paths.dfy`: moves, routes and costs on the grid, and the argument for never reopening; the distance
  is any metric, and the Euclidean distance of the code is shown to be one.
- `NodeList.dfy`: the list operations of `controllers/mapping.c` on chains of heap cells, with null
  handles, the swap at the head of `addNode` and the empty cell that `pop` leaves, against sequences.
- `SearchState.dfy`: the invariant of the search over lists and node heap, step by step.
- `Reference.dfy`: the search on values alone. `Crashes` says of every map whether the program would read
  through a null list on it.
- `Planner.dfy`: `command` with all it calls, over an explicit heap in which freeing removes a node and
  no freed node can be read. `Command` is the main result: optimality, completeness, termination and
  exact memory in one contract, and for every map whether the program as it is written gets through.
- `FourCells.dfy`: a map on which it does not.

**Map replication** goes from the mapper's saturating counters over a self-delimiting stream to the
planner's map.

- `Grid.dfy`: points to cells and back, with C's truncating conversion.
- `MapStream.dfy`: framing of map updates and of message buffers.
- `Mapper.dfy`: the mapper in place, and the agreement of both maps over every run (`MapsAgree`).
- `Chart.dfy`: the planner's map and how an update changes it, truncated updates included.
- `Navigation.dfy`: both ends joined: the planner's routes avoid exactly what the mapper saw.
- `PipeDescriptor.dfy`: the text in which pipes are passed to a new process, printed and scanned.

`Wrappers.dfy` holds what the modules share.

Findings. `removeNode` leaves a null list when it takes out the only item, and the `addNode` that
follows it in `command` reads through it. That happens exactly when the cell to be recorded is the only
open one (`Planner.Planner.Improve`); `Planner.Planner.Command` reports it as `nulled`, which holds if and
only if `Crashes` holds of the map, the pose and the goal. Where it does not hold the outcome is that of
the program as it is written; where it does, the program fails there, and the outcome is that of the
program with the list renewed, as `pop` renews it. Four free cells are enough (`FourCellsCrash`).

`addObstacle` admits the coordinate `GRID_NUM`, one past the map; it does no harm because `gridify` never
returns it (`CheckedInBounds`). A map update that is cut short makes the planner mark the cells of an
earlier one; `Charts.Chart.Receive` says when and which. `genNeighbors` reads the map in bounds exactly
around interior cells (`ReadsInBounds`), and nothing in the program keeps the search among them.
`balanceReps` does not consider for its second pick a replica that led before and was overtaken
(`Ranking.SecondPick`).

## Model

| member | source | states |
|---|---|---|
| VoteBuff.TurnIsRemainder | voter/vote_buff.c:115-118 | the remainder by which an index is advanced is one turn round the ring |
| VoteBuff.WindowShrinks | voter/vote_buff.c:115-118 | advancing the index drops bytes from the front of the queue and changes no other, wrapped or not |
| VoteBuff.WindowExtends | voter/vote_buff.c:56-65 | writing round the ring from where the queue ends appends to the queue, wrapped or not |
| VoteBuff.MemCmp | voter/vote_buff.c:126-137 | zero exactly on equal byte sequences |
| VoteBuff.VotePipe.Reset | voter/vote_buff.c:31-43 | an empty queue at index zero |
| VoteBuff.VotePipe.PipeToBuff | voter/vote_buff.c:46-76 | appends the chunk exactly when it is not empty and leaves the ring short of full, else changes nothing: a queue of capacity N-1 |
| VoteBuff.VotePipe.CopyBuffer | voter/vote_buff.c:79-87 | the oldest n bytes, in order, across the wrap |
| VoteBuff.VotePipe.BuffToPipe | voter/vote_buff.c:90-112 | written bytes followed by the rest of the queue are the old queue; more than is queued is refused |
| VoteBuff.VotePipe.FakeToPipe | voter/vote_buff.c:115-118 | drops the oldest n bytes and nothing else |
| VoteBuff.CompareBuffs | voter/vote_buff.c:121-138 | zero exactly when the indices are equal and the oldest n bytes are |
| VoteBuff.CopyPipe | voter/vote_buff.c:140-152 | the copy has the same index and the same queue |
| VoterModel.Least | src/replicas.c:63-71 | the least number of queued bytes, which some replica has |
| VoterModel.BehindRep | src/replicas.c:86-99 | the first least replica in the order fewest bytes, then highest priority |
| VoterModel.SendAlways | voter/voterd.c:406-426 | a send emits the sender's first bytes, as many as all rings hold, and advances every ring by as many; with none it changes nothing |
| VoterRuns.AlignedStep | voter/voterd.c:261-370 | every event in every mode keeps all replicas' indices equal on each pipe |
| VoterRuns.ReachableAligned | voter/vote_buff.c:121-125 | in every run, whatever the replicas write, indices are aligned, so a comparison never fails on the index and is decided by the bytes alone |
| VoterRuns.VoteDrains | voter/voterd.c:428-491 | a vote leaves its pipe drained if and only if there was nothing to vote on or two replicas agreed |
| VoterRuns.ReachableDrained | voter/voterd.c:406-426 | in SMR and DMR some ring is empty on every pipe in every run |
| VoterRuns.InputGate | voter/voterd.c:245-259 | with drained rings the synchronisation test holds exactly when every ring is empty |
| VoterRuns.FromStart | src/replicas.c:12-37 | from start-up every run of every mode is aligned; in SMR and DMR it is drained, and input is admitted exactly when every ring is empty |
| VoterRuns.FlushColumn | voter/voterd.c:102-107 | a flush sends as many of the restarter's bytes as the least survivor has, and every survivor keeps the rest |
| VoterRuns.RestartEmitsOnce | voter/voterd.c:62-155 | a restart extends each output by the first k bytes of the restarter, k the least count of the survivors; the restarter's emitted and queued bytes together stay; the restartee is left with the restarter's queue; in DMR every ring ends empty |
| VoterInputs.RestartInputs | voter/voterd.c:96-112 | on every input pipe restarter and restartee are left with the same pending input exactly when the restarter's fits one read; then its own is unchanged; no third replica's is touched |
| VoterRuns.JudgeAccuracy | voter/voterd.c:451-489 | with two healthy rings the verdict is agreement or the expulsion of the third, exactly as its compared bytes are right or wrong |
| VoterRuns.Diagnosis | voter/voterd.c:451-489 | under the single-fault hypothesis a vote finds an agreeing pair, expels nobody but the suspect, and expels it if and only if it deviates within the compared bytes |
| VoterRuns.SendKeepsStreams | voter/voterd.c:406-426 | a send keeps the emitted and queued bytes of every replica that agrees with the sender |
| VoterRuns.RestartKeepsStreams | voter/voterd.c:62-155 | a restart by a healthy replica keeps the streams of healthy survivors and gives the restartee those of the restarter |
| VoterRuns.VoteKeepsStreams | voter/voterd.c:428-491 | a vote keeps every healthy replica's streams, and an expelled replica is healthy afterwards |
| VoterRuns.OutputStep | voter/voterd.c:495-504 | taking a chunk and voting keeps the hypothesis, restarts no healthy replica, and adds to a healthy replica's streams exactly what it wrote |
| VoterRuns.TimeoutStep | voter/voterd.c:157-203 | a timeout restart keeps the hypothesis and drains every pipe |
| VoterRuns.MaskedStep | voter/voterd.c:261-370 | every admissible event keeps alignment, drainage and the single-fault hypothesis |
| VoterRuns.FaultRunMasked | voter/voterd.c:261-370 | so does every run, with faults striking in it |
| VoterRuns.NothingLost | voter/voterd.c:406-491 | in a run no byte of a replica that is neither struck nor restarted is lost, repeated or reordered between its writes and the emitted and queued bytes |
| VoterRuns.Masking | voter/voterd.c:448-491 | TMR masking over whole runs: what is written to each external pipe is a prefix of its reference stream and all of the slowest replica's; rings are aligned; input is admitted exactly when every byte read has been emitted |
| VoterRuns.FaultFree | voter/voterd.c:448-491 | without faults the output is exactly the shortest of the three replicas' outputs |
| VoterRuns.RunMasked | voter/voterd.c:261-370 | a run of admissible voter events keeps the hypothesis and is one of the masked runs |
| VoterRuns.RunJoined | voter/voterd.c:261-370 | two runs, one after the other, are a run |
| VoterInputs.InputDelivered | voter/voterd.c:389-404 | in DMR and TMR, after any run from start-up in which whoever is cloned has at most one read of input pending, what a replica has read followed by what is pending for it is the whole input of that pipe, a clone having inherited its original's history |
| VoterInputs.ColdInput | voter/voterd.c:162-185 | after any run of a single replica a restart leaves it, on each input pipe, exactly the last chunk read there |
| VoterOutputs.StepSettles | voter/voterd.c:428-447 | every step of one or two replicas keeps the books: as much of replica 0's bytes has been emitted as every replica has written, and the rest of each is queued |
| VoterOutputs.BooksBalance | voter/voterd.c:428-447 | so does every run, under no fault hypothesis and across restarts, after which both have the book of the one that was cloned |
| VoterOutputs.SingleOutput | voter/voterd.c:435-439 | in SMR, in every run and across restarts, what is emitted is all that the replica wrote in chunks that fitted, in order |
| VoterOutputs.DoubleOutput | voter/voterd.c:440-447 | in DMR without a timeout, emitted and queued bytes of replica 0 are all that it wrote in chunks that fitted, and as many are emitted as the slower replica wrote |
| VoterTimeout.TimeoutChoice | voter/voterd.c:188-198 | in DMR and TMR a timeout restarts the first replica behind on the stop pipe, from the one before it going round |
| VoterTimeout.TimeoutHeals | voter/voterd.c:188-198 | in TMR a suspect behind both others on the stop pipe is the one that a timeout restarts, whatever the priorities, and all three are healthy afterwards |
| VoterWatch.WatchStep | voter/voterd.c:389-426 | after a step the watchdog runs if and only if the step was input on the start pipe or armed it, or it ran before and the step neither emitted on the stop pipe nor restarted anybody from another nor was an exit |
| VoterWatch.WatchRun | voter/voterd.c:389-426 | after any run from start-up it runs if and only if some event started it and no later step stopped it |
| VoterPass.PassIsDue | voter/voterd.c:261-370 | a pass consists of exactly the events that are due, in order: the restart, then each external chunk if the rings are in step, else possibly the arming, then each replica's chunk pipe by pipe |
| VoterPass.PassOnce | voter/voterd.c:261-370 | each event that is due occurs once and no other does; the pass begins with a timeout if and only if the watchdog runs, has expired and no exit of the single replica came before |
| VoterPass.InputsGiven | voter/voterd.c:330-340 | the reads of the external pipes give every replica each chunk that there is, and touch neither rings nor output |
| Ranking.GapMirrorsTotal | src/replicas.c:101-110 | ordering replicas by summed gap is ordering them by total queued bytes, reversed |
| Ranking.TopPriority | src/replicas.c:112-143 | exactly one replica gets the top priority and it has the fewest queued bytes over all output pipes; at most one gets the middle one |
| Voter.PickLagging | src/replicas.c:113-125 | the first replica with the largest gap, and as second pick the first with the largest gap among slot 1 and the slots that did not exceed all before them |
| Voter.SetPriorities | src/replicas.c:127-142 | top, middle and default priority by rank, kept where the scheduler refuses |
| Voter.Voter.BytesReady | src/replicas.c:63-71 | the loop computes the least count |
| Voter.Voter.AheadRep | src/replicas.c:73-83 | the first replica with the most queued bytes |
| Voter.Voter.BehindRep | src/replicas.c:86-99 | the loop computes the first least replica |
| Voter.Voter.RepGap | src/replicas.c:101-110 | the loop sums the distance to the leader over output pipes |
| Voter.Voter.BalanceReps | src/replicas.c:112-143 | top priority to the first most lagging replica of the current rings, middle priority to the loop's second pick |
| Voter.Voter.InitReplica | src/replicas.c:12-37 | empty rings, no pending input and default priority for one slot, nothing else changed |
| Voter.Voter.RestartReplica | src/replicas.c:145-187 | the restartee's slot is fresh, everybody else's rings and input are kept, and priorities are balanced for the new rings |
| Voter.Voter.SendPipe | voter/voterd.c:406-426 | the heap rings, output and watchdog change as the model's send |
| Voter.Voter.Judge | voter/voterd.c:448-489 | the comparison loop on heap rings gives the model's verdict |
| Voter.Voter.CheckSDC | voter/voterd.c:428-491 | the vote, in all three modes, is the model's |
| Voter.Voter.ProcessFromRep | voter/voterd.c:495-504 | a chunk that fits is taken and voted on, one that does not is lost, as in the model; priorities are balanced for the rings with the chunk in them and stay so unless a replica is expelled |
| Voter.Voter.StealPipes | voter/voterd.c:207-233 | takes at most one buffer of each pending input of one replica |
| Voter.Voter.ReturnPipes | voter/voterd.c:236-243 | writes it behind what is pending |
| Voter.Voter.FlushPipes | voter/voterd.c:102-107 | every output pipe is flushed, with the rings and output the model has |
| Voter.Voter.RestartPrep | voter/voterd.c:62-155 | steal, reset, copy, flush and return together are the model's restart |
| Voter.Voter.ProcessData | voter/voterd.c:389-404 | every replica's input grows by the chunk; the start pipe arms the watchdog; priorities are balanced for the current rings |
| Voter.Voter.ColdRestart | voter/voterd.c:162-185 | the single replica restarts empty with the last chunk of every input |
| Voter.Voter.RestartHandler | voter/voterd.c:157-203 | restarts the replica behind on the timer pipe from its neighbour |
| Voter.Voter.CheckSync | voter/voterd.c:245-259 | true exactly when all replicas have as many bytes queued on each pipe |
| Voter.Voter.CheckTimers | voter/voterd.c:268-308 | a self-exited single replica, or else an expired watchdog, is handled |
| Voter.Voter.PassGate | voter/voterd.c:310-352 | external input is read only when rings are in step, else the watchdog may be armed |
| Voter.Voter.DoOneUpdate | voter/voterd.c:261-370 | one pass is exactly the run of its events: restart, gate, then every replica's output in pipe order |
| VoterMasking.DoMaskedUpdate | voter/voterd.c:261-370 | a pass of admissible events keeps the single-fault hypothesis for the next pass, and what has been written to each external pipe is a prefix of its reference stream |
| Voter.Voter.constructor | src/replicas.c:189-238 | start-up yields the initial state on fresh, distinct rings |
| Paths.EuclideanMetric | controllers/a_star.c:112-114 | the distance in use is a metric |
| Paths.RouteMeetsOpen | controllers/a_star.c:140-192 | every route to a cell not closed passes an open cell recorded no dearer than the route up to there |
| Paths.EstimateConsistent | controllers/a_star.c:112-117 | the estimate never overrates the rest of a route |
| Paths.LeastIsOptimal | controllers/a_star.c:140-168 | the open cell with the least key is recorded at the cost of its cheapest route, so closing it for good is right |
| Paths.NothingOpen | controllers/a_star.c:163-167 | with the open set empty no route leads to a cell that is not closed |
| Paths.FrontierCloses | controllers/a_star.c:168-170 | closing the least open cell keeps closed costs optimal and leaves only its own moves to settle |
| Paths.MoveSettled | controllers/a_star.c:173-188 | each turn of the neighbour loop settles one of these moves |
| NodeList.Slot | controllers/mapping.c:114-135 | the insertion point: behind every smaller or equal value, before the first greater |
| NodeList.InsertedSorted | controllers/mapping.c:114-135 | insertion keeps the list sorted and is stable |
| NodeList.InsertedRefs | controllers/mapping.c:114-135 | insertion adds one node and loses none |
| NodeList.RemovedKeeps | controllers/mapping.c:97-111 | removal takes out that node only and keeps the order |
| NodeList.Find | controllers/mapping.c:137-145 | the first item at a cell, or none |
| NodeList.List.AddNode | controllers/mapping.c:114-135 | on the chain, by filling an empty cell, swapping with a greater one or extending the tail, the node goes behind every smaller or equal value; the handle must not be null |
| NodeList.List.RemoveNode | controllers/mapping.c:97-111 | the first matching cell is unlinked from its predecessor or from the handle, nothing else; a list that is never pushed to is left null if and only if that was its only item |
| NodeList.List.FindNode | controllers/mapping.c:137-145 | the walk along the cells finds the first node at a cell, or none, also from a null handle |
| NodeList.List.Pop | controllers/mapping.c:156-168 | the chain loses its first cell and holds the rest of the sequence; an exhausted chain is replaced by an empty cell, so the handle is never null afterwards |
| NodeList.List.Push | controllers/mapping.c:148-154 | the chain gains a first cell in front of whatever it was, a null handle and an empty cell included |
| Reference.MovesAreMoves | controllers/a_star.c:61-86 | the neighbours in the order of the double loop are exactly the legal moves |
| Reference.OnlyOpen | controllers/mapping.c:100-106 | the open list has one item, at a given cell, exactly when that is the only open cell |
| Reference.TraceUnique | controllers/a_star.c:140-192 | a search takes one course |
| Reference.CrashesExactly | controllers/a_star.c:178-184 | a finished search crashes exactly when one of its stages relaxes the only open cell |
| SearchState.ReadsInBounds | controllers/a_star.c:65-83 | the map is read in bounds around a cell if and only if the cell is interior |
| SearchState.BorderContains | controllers/a_star.c:61-86 | behind a blocked border every route stays interior |
| SearchState.HeadIsLeast | controllers/a_star.c:141 | the head of the open list has the least cost plus estimate of all open cells |
| SearchState.ListRenewed | controllers/a_star.c:178-184 | replacing a cell's open node keeps the list sorted by key and one node for each open cell |
| SearchState.SoundClosed | controllers/a_star.c:168-169 | moving the head to the closed list keeps the whole search invariant: distinct coordinates, disjoint lists, traced back links, accounted memory |
| SearchState.SoundRenewed | controllers/a_star.c:178-184 | recording a cheaper neighbour keeps that invariant |
| SearchState.RelaxedDropped | controllers/a_star.c:174-188 | freeing a neighbour that is closed or no cheaper keeps it and settles the move |
| Planner.Planner.EraseList | controllers/mapping.c:181-187 | frees each node of the list once and no other |
| Planner.Planner.EraseAllButList | controllers/a_star.c:119-130 | where coordinates identify nodes, deciding by coordinates frees exactly the nodes not in the saved list |
| Planner.Planner.GenNeighbors | controllers/a_star.c:61-86 | one new node for each legal move and no other, by the corner rule, in the order of the double loop |
| Planner.Planner.Record | controllers/a_star.c:178-184 | the neighbour is linked, its cell's open node replaced and freed, and the new one inserted by key; the list was null in between exactly when it had one item, at that cell |
| Planner.Planner.Improve | controllers/a_star.c:178-184 | the search invariant is kept and the next stage reached; the list was null in between if and only if the neighbour's cell is the only open one |
| Planner.Planner.Relax | controllers/a_star.c:173-188 | one neighbour: the invariant is kept, the move settled, and stage and null list are those of the reference search |
| Planner.Planner.RelaxAll | controllers/a_star.c:170-191 | the neighbour loop settles every move and leaves no loose node; it takes the course of the reference search and tells whether the list was null on it |
| Planner.Planner.Expand | controllers/a_star.c:168-191 | a turn of the main loop closes exactly one new cell, reaches the reference search's next stage and tells whether the list was null on the way |
| Planner.Planner.Extract | controllers/a_star.c:149-152 | the path list spells the route of the back links, from the start |
| Planner.Planner.Finish | controllers/a_star.c:142-161 | afterwards the nodes left are those from before, less the old path, and those on the new path |
| Planner.Planner.Turn | controllers/a_star.c:140-192 | a turn ends the search with its outcome or closes one more cell of the finite grid; where the program would have met a null list it says so |
| Planner.Planner.Command | controllers/a_star.c:132-192 | a solution if and only if a legal route exists; then the path list is a legal route from pose to goal whose cost is the goal node's and that no route undercuts, and every other node made is freed; else one node for each reachable cell and the goal's are left. For every map, `nulled` if and only if the reference search crashes: without it this is the outcome of the program as written, with it the program fails and this is the outcome with the list renewed |
| FourCells.FourCellsCrash | controllers/mapping.c:97-135 | four free cells with the pose in one of them are a map that the planner accepts and on which the search crashes |
| FourCells.MeetNull | controllers/a_star.c:178-184 | on that map `Command` meets the null list |
| Planner.Planner.HandleUpdate | controllers/a_star.c:265-283 | an update changes map and pose, and with obstacles there is a new search on the new map, with the outcome of `Command` |
| Planner.GoalOptimal | controllers/a_star.c:141-161 | the popped goal node's route is legal, has its cost, and is cheapest |
| Planner.ClosedIsReachable | controllers/a_star.c:163-167 | with nothing open the closed cells are exactly the reachable ones |
| Grid.Truncate | controllers/mapping.c:6-25 | truncation toward zero, also of negative values |
| Grid.GridifyInverts | controllers/mapping.c:6-37 | gridify undoes degridify exactly on non-negative coordinates other than GRID_NUM |
| Grid.NearestCell | controllers/mapping.c:6-37 | a point of the map from -8 to 8, both ends included, is in one of the 80 cells and within a tenth of its middle; the ends are in cells 0 and 79, the origin in cell 40 |
| Grid.CheckedInBounds | controllers/mapper.c:78-83 | a converted point passes the check exactly when it is in bounds |
| MapStream.SendMapUpdate | src/commtypes.c:195-225 | the buffer loop writes the encoding of the update |
| MapStream.RecvMapUpdate | src/commtypes.c:228-267 | one decoded update goes to the caller's arrays and the rest is left; a positive count is returned exactly for a decoded update or a short, not empty read, and after a short read the arrays are as before |
| MapStream.DecodeEncode | src/commtypes.c:195-267 | decoding takes exactly one encoded update, whatever follows |
| MapStream.DecodeEncodeAll | src/commtypes.c:195-267 | any sequence of updates comes out as it went in |
| MapStream.LengthRoundTrip | src/commtypes.c:333-336 | the four length bytes give the length back |
| MapStream.MessageRoundTrip | src/commtypes.c:327-380 | decoding takes exactly one length-prefixed message, whatever follows |
| MapStream.MessagesRoundTrip | src/commtypes.c:327-380 | any sequence of messages comes out as it went in |
| Mapper.AnnouncedOnce | controllers/mapper.c:85-97 | a cell is announced exactly when it was hit more than OBS_THRES times, and once |
| Mapper.AnnouncedGrows | controllers/mapper.c:85-97 | what was announced stays announced, in order |
| Mapper.ReportSize | controllers/mapper.c:111-127 | a scan announces no more cells than it has points |
| Mapper.Mapper.Count | controllers/mapper.c:85-96 | the counter holds the saturated number of hits |
| Mapper.Mapper.AddObstacle | controllers/mapper.c:78-98 | points that fail the check change nothing; the hit that passes the threshold is put in the message |
| Mapper.Mapper.UpdateMap | controllers/mapper.c:100-140 | a scan adds its hits and sends exactly what they announced; the first words sent are the cell of the robot's pose and the number of obstacles |
| Mapper.MapsAgree | controllers/mapper.c:78-140 | in every run the planner's blocked cells were hit more than OBS_THRES times, and with the pipe empty they are exactly those |
| Mapper.BlockedAreScanned | controllers/mapper.c:78-140 | with the pipe empty a cell is blocked if and only if it is on the grid and three points or more of the scans so far fell into it |
| Mapper.PoseFollows | controllers/mapper.c:100-140 | the planner's pose is the cell of the robot at the scan whose update it took last; with the pipe empty, at the last scan |
| Mapper.AnnouncedOnceInRun | controllers/mapper.c:85-97 | the updates of a run name each such cell exactly once and no other |
| Mapper.DeliverySafe | controllers/a_star.c:268-276 | whatever is on the wire can be decoded, fits the planner's arrays and lies on its map |
| Mapper.BlockedAreCounted | controllers/a_star.c:268-276 | with the pipe empty a cell is blocked exactly when its counter exceeds OBS_THRES |
| Mapper.UpdatesFit | controllers/mapper.c:100-140 | every update fits the 128-entry, 1024-word and 200-entry buffers |
| Charts.Chart.MarkAll | controllers/a_star.c:273-275 | marks exactly the listed cells |
| Charts.Chart.Receive | controllers/a_star.c:268-276 | marks the update's obstacles; after a short but not empty read, those that the message still lists from before, as many as it now counts |
| Navigation.Deliver | controllers/a_star.c:265-283 | the planner's map and pose follow the run of the whole system, and once the pipe is empty it finds a cheapest route from the cell of the last scan's pose round exactly the cells into which three scan points or more fell, if there is one |
| PipeDescriptor.CommToEnum | src/commtypes.c:8-26 | inverts the table of names; any other text is COMM_ERROR |
| PipeDescriptor.ScanDecimal | src/commtypes.c:42-53 | a printed number is scanned back, sign included |
| PipeDescriptor.ScanPrinted | src/commtypes.c:42-53 | any run of printed fields is scanned back; directives in excess assign nothing |
| PipeDescriptor.DescriptorRoundTrip | src/commtypes.c:28-53 | the descriptor is read back if and only if at most one end is set; otherwise the output end is lost |
| PipeDescriptor.TimedRoundTrip | voter/voterd.c:547-556 | the voter reads the plumber's argument back with its flag, and its typed form is the plumber's pipe under the same condition |
| PipeDescriptor.PlainIsNotTimed | voter/voterd.c:547-556 | a plain descriptor leaves the voter's flag unassigned |
| PipeDescriptor.DescriptorText | src/commtypes.c:28-40 | the text of a descriptor, on examples of each form |

## Left out

- Planner.Planner.Command: requires that no route leads to the edge of the map, because `genNeighbors` reads the map without a bounds check; the program itself does not establish that.
- NodeList.List.Pop: that list cells themselves are freed is not modelled, only that they leave the chain; node memory is modelled.
- Mapper.Mapper.AddObstacle: requires that a cell that passes the check is on the map, since the check lets `GRID_NUM` pass and the original then reads past the map; every converted point meets this.
- Voter.Voter.RestartReplica: kill, fork, signals and descriptor passing are left out; a restart is its effect on rings, pending input and priorities.
- Voter.Voter.DoOneUpdate: what `select` and `read` report is a parameter of the pass; descriptors replaced by a restart within the pass are not told apart from the old ones.
- MapStream.SendMapUpdate: is limited to 510 obstacles, beyond which the original writes past its buffer before it looks.
- MapStream.RecvMapUpdate: is limited to updates that fit its buffer and the caller's arrays, which the original does not look at; `DeliverySafe` shows that the mapper's do. A read that ends within a word is not modelled.
- PipeDescriptor.ScanInt: numbers are unbounded, and a scanned number that does not fit a C int, which the C standard leaves undefined, is not modelled.
- Kernel pipes are unbounded queues that take every write whole; partial and failed writes are not modelled.
- The watchdog's clock: expiry is arbitrary while the watchdog runs; the zero-byte reads at voter start-up have no effect and are left out.
- Priorities in a timeout event are arbitrary, a superset of those that balancing produces.
- Floating-point rounding: coordinates and costs are reals, and the square root is any function with its defining property.
- Overflow of C ints other than the sign of a message length.
- The trigonometry that turns ranges into points: a scan is sixteen arbitrary points.
- The type and descriptor checks at the head of the message functions, which print and return zero.
- Waypoint sending, acknowledgements, range and move messages: single fixed-size writes.
- Debug printing, benchmark variants and fault injection, the plumber's grammar, sockets and the other controllers: they would add only easy members or foreign libraries.
