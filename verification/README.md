# tmmo: verified model of the game server

This project models the computational core of the tmmo server (a small MMORPG server in C) in Dafny 4.11
and proves what it is for: world generation and region labelling, the game tick, the thread pool with its
job queue, the outgoing message queue, the string cipher, the hash table of game functions, and the word
splitter. `dafny verify dfyconfig.toml` checks everything.

How it is built: code that works in place is imperative Dafny over arrays and objects, and each such method
is proved against a pure function or predicate of its old state; what the program promises is then proved
about those functions for all inputs, all runs and all interleavings. The two concurrent parts are step
systems with explicit program counters, in which any thread may take its next step at any time.

| files | part |
|---|---|
| `Grid`, `LinkedQueue`, `RegionFill`, `RegionLabels`, `MapGeneration`, `Buildings` | the map: cells and 4-neighbour paths, the queue, flood fill, labels, generation, placing buildings |
| `World`, `Movement`, `Ticks`, `TickChase`, `Roam`, `Combat`, `Hunt`, `Duel`, `TurnEffects`, `GameTick`, `Replies`, `Reachable` | characters as values, greedy movement, invariants over runs, chases of one foe and among many, fights over runs, both together, what turns and requests do in plain terms, the imperative tick, the replies in plain numbers, the link to generated maps |
| `ThreadPool`, `PoolCalls`, `PoolProgress`, `PoolJoin`, `PoolShutdown`, `JobList` | workers, producers and shutdown as a step system; that jobs are the calls made; that they get through; when the joins return; what shutdown loses; the linked job list |
| `SenderQueue`, `SenderProgress`, `SenderCalls` | the outgoing queue, write by write; that messages get through; that they are the messages passed in |
| `Cipher`, `StrHashtable`, `Words`, `Bytes`, `Options` | the string cipher, the hash table, `get_word`, signed chars, a missing-value type |

Conventions. Values of `rand()` and `clock()` are parameters. Squared integer distances stand for the
source's `sqrt`/`pow` comparisons (`Grid.SqMeaning`), and `None` for its `INT_MAX` and `DBL_MAX` sentinels. Integers are
unbounded except in the cipher and the hash, which are modelled on bytes and 32-bit words with `char` signed.
Allocation succeeds.

What the proofs brought out about the code:

- The number of queued jobs is *not* always bounded by signals still to be sent plus woken workers while a
  worker sleeps: the woken worker may already hold the mutex with the job still queued. With n workers and m
  producers that bound holds in every reachable state if and only if n <= 1 or m = 0
  (`PoolProgress.SignalsAndWokenExactly`; the server runs 2 workers). Counting the one worker inside makes it
  hold always (`ThreadPool.WakeupBound`), and that is enough for every job to get through
  (`PoolProgress.JobsGetThrough`).
- Shutdown can lose jobs. `jqueue_destroy` looks at `first_node` before it takes the mutex, so a job appended
  after a look at an empty list, or after the drain, is neither run nor freed; no other job is
  (`PoolShutdown.LostExactly`). Once the joins have returned and no new call starts, nothing is lost if and only
  if no call is waiting for the mutex or about to append to an empty list (`PoolShutdown.SafeToDestroy`). The
  server does not stop the thread that reports timed-out players before it destroys the pool.
- Shutdown can hang. `threadpool_destroy` clears `threads_active` and signals without the mutex, so a worker that
  has read the flag but does not sleep yet misses its signal. Nobody sleeps through the signals if and only if
  no worker is at that point when the flag is cleared (`PoolJoin.SignalsReachAllExactly`), and then the joins can
  return (`PoolJoin.JoinsCanReturn`).
- Decrypting an encrypted string restores it exactly when it contains no byte that encrypts to 0
  (`Cipher.RoundTripExact`); otherwise the result is the original cut before the first such byte. A key restores
  every string if and only if that byte is 0 (`Cipher.SafeKeys`): keys of at most one character do, "aa" does not.
- A run of operations on the hash table completes if and only if nothing that takes its mutex follows an add of
  a hash already there, because that add returns with the mutex held (`StrHashtable.RunOps`).

## Model

| member | source | states |
|---|---|---|
| Grid.AdjacentIsFourNeighbour | src/game_processing/map.c:45-80 | On a shaped map, one step of the flat neighbourhood is exactly one step of x or of y between the coordinates the cells carry; no step wraps around a row end |
| LinkedQueue.Queue.Enqueue | src/server/queue.c:51-77 | Appends to the sequence the list stands for, whatever the stale ends of an empty list hold |
| LinkedQueue.Queue.Dequeue | src/server/queue.c:79-96 | Removes the front of the sequence; an empty queue yields NULL and is unchanged |
| LinkedQueue.Queue.IsEmpty | src/server/queue.c:39-49 | True exactly for the empty sequence |
| RegionFill.SetRegion | src/game_processing/map.c:31-86 | Relabels exactly the cells reachable from the seed through unclaimed cells of its ground, with the next number of that ground; each is enqueued exactly once; unlabelled cells plus queue length falls by one per iteration |
| RegionFill.Expand | src/game_processing/map.c:43-80 | One iteration: the dequeued cell is left with no open neighbour outside the queue order, and the measure is unchanged by the four visits |
| RegionFill.Visit | src/game_processing/map.c:46-53 | One neighbour block claims and enqueues its cell exactly when it is in the map, of the ground and unclaimed |
| RegionFill.EnqueueCell | src/game_processing/map.c:50-51 | Claiming an open neighbour keeps the fill invariant and removes exactly one cell from the unlabelled ones |
| RegionFill.FillComplete | src/game_processing/map.c:82 | When the queue is empty the claimed cells are exactly the reachable ones |
| RegionLabels.ScanFill | src/game_processing/map.c:154-155 | A fill started at the first unclaimed cell of the scan keeps: labels never stop inside or join components, are dense, and appear in scan order |
| RegionLabels.ScanDone | src/game_processing/map.c:149-158 | After the scan, two non-bound cells share ground and region exactly when a path of that ground joins them, bound cells alone stay unlabelled, and each ground uses exactly the numbers below its counter |
| RegionLabels.SmallerAppear | src/game_processing/map.c:35 | Before any cell, every smaller region number of its ground has already appeared in row-major order |
| RegionLabels.CanonicalUnique | src/game_processing/map.c:149-158 | Two canonical labellings of the same grounds agree on every cell |
| RegionLabels.LabelsFollowGrounds | src/game_processing/map.c:149-158 | The labelling is a function of the ground grid alone |
| MapGeneration.NearestGround | src/game_processing/map.c:11-28 | Returns the ground of the site at least distance, the first of several, with (x - sx)^2 + (y - sy)^2 written out |
| MapGeneration.PlaceSites | src/game_processing/map.c:105-129 | Writes exactly the anchors of the bound ground around the rim (eight; more if a size is 3), in loop order, over the first drawn sites, and never past the array |
| MapGeneration.AnchorPlaces | src/game_processing/map.c:113-129 | The anchors stand at the multiples of half the size along each side, column by column, without the centre |
| MapGeneration.SitesDrawn | src/game_processing/map.c:105-111 | The other sites stand where they were drawn, with soil, sand and grass by turns |
| MapGeneration.BorderInWords | src/game_processing/map.c:139-141 | The border test comes out the same in the source's unsigned arithmetic, also when the indent exceeds the size and the subtraction wraps |
| MapGeneration.LayGrounds | src/game_processing/map.c:132-147 | Every cell knows its place; its ground is the bound on the border and otherwise that of its nearest site |
| MapGeneration.LabelRegions | src/game_processing/map.c:149-158 | From a blank grid, changes only labels and leaves them canonical, with the counters telling how many regions each ground has |
| MapGeneration.MapGeneration | src/game_processing/map.c:90-163 | The whole generator: shaped map, grounds from border and sites, canonical dense labels, nothing built, nobody there |
| MapGeneration.GeneratedGrounds | src/game_processing/map.c:132-147 | Each cell of a generated map, in coordinates: the bound within the indent, else the ground of the closest site, of several the first |
| MapGeneration.GeneratedUnique | src/game_processing/map.c:132-158 | Two maps generated from the same sites agree on every cell, building names aside |
| MapGeneration.MapFollowsDraws | src/game_processing/map.c:105-158 | The whole map, grounds and region labels included, is a function of the numbers drawn |
| MapGeneration.GeneratedIsBordered | src/game_processing/map.c:139-141 | With a water bound, land lies within [indent, size - indent] in both coordinates |
| Buildings.HavePlace | src/map&builds_gen/buildgen.c:51-67 | On a bordered map the unchecked reads stay inside the map, and in the row meant unless the corner itself was drawn one column too far; the answer is exactly whether the whole rectangle lies in the map on empty soil of the wanted region |
| Buildings.StampBuilding | src/map&builds_gen/buildgen.c:71-81 | Copies the building cell by cell onto its rectangle and changes nothing else |
| Buildings.TryPlace | src/map&builds_gen/buildgen.c:44-81 | One attempt: places exactly when it fits, and otherwise leaves the map alone |
| Buildings.FitsExactly | src/map&builds_gen/buildgen.c:51-67 | A rectangle fits exactly if each of its places is on empty soil of the wanted region |
| Buildings.StampExactly | src/map&builds_gen/buildgen.c:71-81 | Which cell of the building gives its surface and name to which cell of the map; ground, region and all other cells stay |
| Buildings.BuiltKeeps | src/map&builds_gen/buildgen.c:71-81 | Over any sequence of placements ground, region and place of every cell stay, cells outside all buildings are untouched, covered cells are not empty |
| Buildings.BuildingsDisjoint | src/map&builds_gen/buildgen.c:51-67 | Over any sequence of successful placements no two rectangles share a cell |
| Buildings.BuildingsOnOneRegion | src/map&builds_gen/buildgen.c:55-57 | Any two cells of a building are joined by a path of soil cells of the generated map |
| Buildings.BuiltStaysReady | src/map&builds_gen/buildgen.c:44-81 | Shape, border and canonical labels survive every sequence of placements |
| World.NearestFoeMeaning | src/game_processing/character.c:119-132 | The chosen target is the first nearest character of another race, and none exactly when there is none |
| Movement.LookMeaning | src/game_processing/character.c:247-297 | A look-ahead sees something closer exactly when the first cell is free and the target lies ahead, else only farther cells, never an equal distance |
| Movement.BotIsGreedy | src/game_processing/character.c:243-313 | A bot moves exactly when its squared distance exceeds 1 and some free neighbour is strictly closer, and then onto such a neighbour |
| Movement.BotLooksFarthest | src/game_processing/character.c:300-308 | The chosen direction's look-ahead gets at least as close as that of every other direction |
| Movement.SeenExactly | src/game_processing/character.c:247-297 | What a direction is worth: the least squared distance to the target over the free cells up to three away |
| Movement.BotStepExactly | src/game_processing/character.c:300-313 | The step is fully determined: the direction worth least, of several the first of west, east, north, south, if the target is more than one away and the direction looks at least as near |
| Movement.CloserLowersManhattan | src/game_processing/character.c:247-311 | Each step lowers the Manhattan distance by exactly one |
| Movement.ChaseBound | src/game_processing/character.c:247-311 | A chase of a fixed target takes at most dx + dy - 1 steps |
| Movement.ChaseExact | src/game_processing/character.c:247-311 | On unobstructed land it takes exactly that many |
| Ticks.StepIsFree | src/game_processing/character.c:193-313 | The direction returned for any character is none or leads onto a free, non-wall land cell of the map |
| Ticks.TurnKeepsPlaces | src/game_processing/game_main.c:129-160 | One turn keeps map and characters in agreement and the terrain unchanged |
| Ticks.TurnSound | src/game_processing/game_main.c:132-166 | One turn keeps characteristics, hp between 0 and full and never rising, and targets of the other race |
| Ticks.JoinKeeps | src/game_processing/character.c:82-90 | Adding a character on a free cell keeps the invariant |
| Ticks.JoinExactly | src/game_processing/character.c:82-90 | character_add keeps the invariant if and only if the cell is free: in the map, walkable and unoccupied |
| Ticks.RunKeeps | src/game_processing/game_main.c:120-166 | Every run of ticks, requests and newcomers: all on pairwise different walkable cells, cells marked with the right kind exactly where somebody stands, foes as targets, hp never rising or negative |
| Ticks.WindowInside | src/game_processing/game_main.c:168-170 | The 9x9 window around any character lies inside a map bordered by at least 5 |
| TickChase.HuntTurn | src/game_processing/game_main.c:125-160 | A due turn of a bot with one foe is one step in its heading; the map without it stays the same |
| TickChase.ChaseTurns | src/game_processing/game_main.c:120-160 | Over any series of its turns the bot moves at most dx + dy - 1 times, and exactly as often as its chase is long if always due |
| TickChase.OpenChaseTurns | src/game_processing/game_main.c:120-160 | On open land, given enough due turns, it moves exactly dx + dy - 1 times |
| Roam.BotMoveGains | src/game_processing/game_main.c:132-157 | With any number of foes, a turn that moves a bot brings it exactly one cell nearer to a closest foe, which is its target afterwards |
| Roam.FoeDistFalls | src/game_processing/game_main.c:120-160 | No turn of a bot raises the squared distance to its closest foe, and each move lowers it |
| Roam.RoamBound | src/game_processing/game_main.c:120-160 | Among foes that do nothing, however many, a bot makes fewer moves than the squared distance to its closest foe |
| Combat.DamageRange | src/game_processing/character.c:34-53 | Between foes of level L each hit takes between 6L + 1 and 8L before clamping |
| Combat.RunHits | src/game_processing/character.c:135-184 | Over any run among characters of one level, n hits on a character, by whomever, take at most 8L each, and at least 6L + 1 each unless it ends at 0 |
| Combat.KnockOut | src/game_processing/character.c:135-184 | In any run of ticks, requests and newcomers among characters of one level, a character at full health is alive after up to 12 hits and at 0 after 17 |
| Combat.UnstruckUnhurt | src/game_processing/game_main.c:120-166 | Over any run, whatever the levels, the hp of a character that is not struck does not change |
| Combat.KnockOutTight | src/game_processing/character.c:135-146 | 13 hits can suffice, and from level 5 on 16 may not |
| Combat.ReachableHit | src/game_processing/character.c:111-184 | In every reachable state, whoever a turn chooses to strike is a foe with positive evasion, and a same-level hit stays in the range |
| Hunt.HuntStrikes | src/game_processing/game_main.c:133-157 | A due turn of a hunting bot strikes its foe exactly when it stands still within reach, and otherwise leaves the foe's hp alone |
| Hunt.HuntKills | src/game_processing/game_main.c:120-166 | From chase to kill: on open land a bot whose turns are due brings an idle foe of its level to 0 hp within dx + dy - 1 steps and as many least-damage strikes as cover its hp |
| Hunt.HuntKillsInTime | src/game_processing/game_main.c:120-166 | dx + dy - 1 + 17 due turns are always enough |
| Hunt.StrikesFold | src/game_processing/character.c:135-184 | Beside its only foe, each due turn of a bot is one hit, and the rolls alone decide the foe's hp |
| Hunt.HuntTight | src/game_processing/character.c:135-146 | From any state with a bot beside its only foe: 13 hits that roll 0 bring a full-health foe to 0, and from level 5 on 16 that roll highest do not |
| Duel.ThirteenCanDo | src/game_processing/character.c:135-184 | For every level, a run with 13 hits that brings a full-health character to 0 hp |
| Duel.SixteenNeedNot | src/game_processing/character.c:135-184 | From level 5 on, a run with 16 hits that leaves it alive: the range 13 to 17 cannot be narrowed |
| TurnEffects.MarksExactly | src/game_processing/game_main.c:129-160 | In every sound state a cell shows a player exactly where a player stands and an enemy exactly where a bot does |
| TurnEffects.IdleExactly | src/game_processing/game_main.c:125-127 | A turn changes something only with a wish or aggression and after more than the step time |
| TurnEffects.PaceKept | src/game_processing/game_main.c:125-134 | Over any run, a character's turns that act are more than its step time apart |
| TurnEffects.PlayerGoes | src/game_processing/game_main.c:133-166 | A due player goes one cell its way if that cell is free, and is left without wish and aggression; nobody else changes |
| TurnEffects.PlayerRests | src/game_processing/game_main.c:133-166 | A due player that can neither go nor strike only loses its wish and aggression |
| TurnEffects.BotGoes | src/game_processing/game_main.c:132-152 | A due bot aims at the first closest foe and goes its heading; nobody else changes |
| TurnEffects.BotStrikesExactly | src/game_processing/game_main.c:132-157 | A bot's turn strikes k exactly if it is due, k is its first closest foe and beside it, and it has no step to take |
| TurnEffects.PlayerStrikesExactly | src/game_processing/game_main.c:132-157 | A player's turn strikes k exactly if it is due, k is its target and beside it, and no wish leads to a free cell |
| TurnEffects.BesideExactly | src/game_processing/character.c:155-165 | A distance below 2 means one of the eight cells around, or the same |
| TurnEffects.StrikeTakes | src/game_processing/character.c:135-146 | A strike takes power - armor - r, never less than 0, and leaves hp no lower than 0, where r is the remainder of the roll by the target's evasion |
| TurnEffects.RollWraps | src/game_processing/character.c:137 | The roll counts by its remainder only |
| TurnEffects.DamageBetweenLevels | src/game_processing/character.c:34-53 | What a strike takes between characters of any races and any two levels, for each remainder |
| TurnEffects.StrikeAftermath | src/game_processing/character.c:165-178 | The struck character loses exactly that, turns on the striker and becomes aggressive; the striker lets go exactly at 0 hp; nobody moves or changes otherwise |
| TurnEffects.GoesAsAsked | src/game_processing/game_functions.c:133-158 | A request with a known word leads, with the next due turn, to the cell the word names in coordinates, if it is free; other words change nothing |
| TurnEffects.NewcomerValues | src/game_processing/character.c:16-57 | The characteristics of a newcomer of each race and level, its full health, and that only bots start aggressive |
| TurnEffects.NamedWakes | src/game_processing/query_processing.c:15-20 | Naming a player makes its turn due once its step time has passed |
| GameTick.Character.constructor | src/game_processing/character.c:16-57 | Sets the fields of the value NewChar: race base values times level |
| GameTick.Game.FindTarget | src/game_processing/character.c:111-133 | The loop over all characters makes exactly the change Retarget |
| GameTick.Game.LookAlong | src/game_processing/character.c:247-297 | Each bounded look-ahead loop computes the least squared distance over the free cells it sees |
| GameTick.Game.Pick | src/game_processing/character.c:300-313 | The unset direction is never returned unset; the result is the choice that BotStepExactly determines |
| GameTick.Game.MoveToTarget | src/game_processing/character.c:193-313 | Players and bots get exactly StepOf of the mirrored state |
| GameTick.Game.AttackTarget | src/game_processing/character.c:148-184 | Makes exactly the change Attack: hit within distance 2, target turns on the attacker and is let go at 0 hp |
| GameTick.Game.TakeTurn | src/game_processing/game_main.c:125-166 | The in-place turn makes exactly the change Turn and keeps the game valid |
| GameTick.Game.ScanWindow | src/game_processing/game_main.c:168-214 | The unchecked 9x9 loops find exactly the marked cells of the window, each once and column by column, all inside the map |
| GameTick.Game.TurnAndScan | src/game_processing/game_main.c:122-214 | The whole loop body for one character: its turn, and the scan only if the turn was due |
| GameTick.Game.RunTick | src/game_processing/game_main.c:120-233 | A whole tick is the run of one turn per character in order |
| GameTick.Game.GoRequest | src/game_processing/game_functions.c:112-173 | Records the wish of a known word and answers whether the step is possible now |
| Replies.ReplyExactly | src/game_processing/game_functions.c:112-173 | The answer says whether a direction is missing, unknown, or names a cell that is free now |
| GameTick.Game.NameGiven | src/game_processing/query_processing.c:15-20 | The first message of a player wakes its character |
| GameTick.Game.Add | src/game_processing/character.c:82-90 | Appends a new character on a free cell and marks it |
| GameTick.Game.MapReply | src/game_processing/game_functions.c:89-102 | The 162 numbers of the reply are the tile and occupant codes of the 9x9 window, column by column |
| Replies.ReplyNumbers | src/game_processing/game_functions.c:89-102 | The k-th pair of numbers shows the cell k / 9 columns right and k % 9 rows down from the window's corner, with each code spelt out |
| GameTick.TileCodeFaithful | src/game_processing/game_functions.c:94-96 | Equal codes mean the same surface, and the same ground where nothing is built |
| Reachable.OpeningIsSound | src/map&builds_gen/main.c:11 | A generated water-bound map with any buildings starts the tick machine in its invariant |
| Reachable.WindowSafe | src/game_processing/game_functions.c:90-102 | From generation through buildings to any reachable state, every 9x9 read is of a cell of the map |
| Reachable.NobodyStrays | src/game_processing/game_main.c:136-160 | In every reachable state characters stay within the border, off water and walls, on different cells |
| ThreadPool.StepKeeps | src/game_processing/threadpool.c:17-39 | Every step of every thread keeps mutual exclusion, wake-ups, order, and each job run once |
| ThreadPool.WakeupBound | src/game_processing/threadpool.c:21-32 | While a worker sleeps, queued jobs are at most signals to be sent plus woken workers plus the at most one worker inside before its take |
| PoolProgress.SignalsAndWokenExactly | src/game_processing/job_queue.c:45-51 | In all states n workers and m producers can reach, signals to be sent and woken workers cover the queue while a worker sleeps if and only if n <= 1 or m = 0 |
| PoolProgress.SignalsAndWokenAreNotEnough | src/game_processing/job_queue.c:50-51 | For any larger pool, a reachable state in which they do not |
| ThreadPool.NeverStranded | src/game_processing/threadpool.c:26-29 | While jobs are queued and workers remain, some worker or some producer in mid-call can step without a spurious wake-up |
| PoolProgress.JobsGetThrough | src/game_processing/threadpool.c:21-32 | From every reachable state of an active pool, workers and producers in mid-call can go on, without new calls or spurious wake-ups, until every job added so far is handed out in order |
| PoolJoin.SignalsReachAllExactly | src/game_processing/threadpool.c:68-73 | From the moment the pool is deactivated, nobody is ever asleep after the signals if and only if no worker was between reading the flag and sleeping |
| PoolJoin.SomeRunSleepsExactly | src/game_processing/threadpool.c:26-27 | In some run a worker sleeps through its shutdown, exactly if the pool has workers |
| PoolJoin.JoinsCanReturn | src/game_processing/threadpool.c:70-76 | With no worker caught there, workers and producers in mid-call can go on until all joins return |
| PoolJoin.MissedForGood | src/game_processing/threadpool.c:75-76 | Once all others are gone, only a new call or a spurious wake-up can rouse a worker that missed its signal |
| ThreadPool.LockDepth | src/game_processing/threadpool.c:23-32 | The recursive lock is held once at every wait, twice in the take, not at all outside |
| ThreadPool.JobsConserved | src/game_processing/job_queue.c:36-75 | Jobs handed out, then dropped, then queued are the jobs added, in order; none is run or held twice; NULL is taken only after shutdown began |
| PoolCalls.JobsAreCalls | src/game_processing/job_queue.c:36-52 | Over every run, each job added, queued, handed out, run or dropped has the routine and the argument of the call with its number |
| PoolCalls.NoCallForgotten | src/game_processing/job_queue.c:36-52 | Every call has its job added, or its producer is still on the way to add exactly that job |
| PoolCalls.CallOrderKept | src/game_processing/job_queue.c:45-48 | Each producer's jobs are added in the order of its calls |
| ThreadPool.AfterJoin | src/game_processing/threadpool.c:68-78 | Once joined, every added job has run exactly once, or is dropped, or is still queued, and only one of these |
| PoolShutdown.LostExactly | src/game_processing/job_queue.c:82-100 | In every run to the end, the jobs neither run nor dropped are those appended after the look at an empty list or after the drain; every job is run or dropped if and only if there are none |
| PoolShutdown.LostBetweenPeekAndDrain | src/game_processing/job_queue.c:84-88 | For any pool with a producer, a run in which a job is appended between the look and the lock, and lost |
| PoolShutdown.SomeRunLosesExactly | src/game_processing/threadpool.c:68-78 | All runs of a pool keep every job if and only if it has no producers |
| PoolShutdown.SafeToDestroy | src/game_processing/threadpool.c:75-78 | When the joins have returned and no new call starts, all continuations keep every job if and only if no call still wants the mutex or holds it before its append to an empty list |
| PoolShutdown.QuietProducersLoseNothing | src/game_processing/threadpool.c:75-78 | If no producer is in a call when the joins have returned and none starts one, nothing is lost |
| JobList.JobQueue.constructor | src/game_processing/job_queue.c:25-34 | The empty list: the head is its own last node |
| JobList.JobQueue.AddJob | src/game_processing/job_queue.c:36-52 | Appends, through the sentinel when the list is empty |
| JobList.JobQueue.GetJob | src/game_processing/job_queue.c:54-75 | Pops the front or returns NULL; the head is last again when the last node goes |
| JobList.JobQueue.LastMeaning | src/game_processing/job_queue.c:67-69 | The last node is the head, and first_node is NULL, exactly when no job is queued |
| JobList.JobQueue.Destroy | src/game_processing/job_queue.c:82-100 | Frees every queued job front to back |
| SenderQueue.StepKeeps | src/server/queue.c:51-96 | Every single write of any producer or of the sender keeps the list described by count well linked |
| SenderQueue.UnlockedReadsAgree | src/server/queue.c:81-91 | From leaving the wait loop to the pop the list is not empty and the node read without the mutex stays the front, so the sender never gets NULL |
| SenderQueue.SentIsPrefix | src/server/threads.c:71-96 | What is sent is always a prefix of what was enqueued; the rest is in flight or listed, in order |
| SenderCalls.EnqueuedAreCalls | src/server/queue.c:51-77 | Over every run, what is enqueued for each producer is what it passed in, in call order, up to a call not counted yet |
| SenderCalls.NothingLostOrInvented | src/server/queue.c:51-77 | As multisets, the messages enqueued and those of calls not counted yet are the messages passed in |
| SenderCalls.SentAreCalls | src/server/threads.c:71-96 | At any time the messages sent for each producer are the first ones it passed in, in order |
| SenderQueue.NoDanglingAccess | src/server/queue.c:65 | Every node dereferenced is allocated |
| SenderQueue.NeverStranded | src/server/threads.c:75-84 | A listed message always has a step on its way without a spurious wake-up |
| SenderProgress.MessagesGetThrough | src/server/threads.c:71-96 | From every reachable state, the sender and producers in mid-call can go on, without new calls or spurious wake-ups, until every message enqueued so far is sent in order |
| SenderCalls.CallsGetThrough | src/server/threads.c:71-96 | From wherever a run has got to, they can go on until everything passed in so far is sent, each producer's messages in the order of its calls |
| Cipher.MixLoop | src/server/crypto.c:80-90 | The accumulation loops compute the fold over every step-th key byte |
| Cipher.RoundRotates | src/server/crypto.c:41-42 | A round subtracts the rotation of the accumulator by 13 bits |
| Cipher.KnownKey | src/server/crypto.c:71-90 | The parameters of one five-byte key, worked out, with a byte that counts as negative |
| Cipher.Prepare | src/server/crypto.c:71-90 | m1, m2 and the hash of the key, on the bytes that matter |
| Cipher.Encrypt | src/server/crypto.c:71-99 | Replaces exactly the bytes before the terminator by their encryption |
| Cipher.Decrypt | src/server/crypto.c:101-128 | Replaces exactly the bytes before the terminator by their decryption |
| Cipher.ByteRoundTrip | src/server/crypto.c:93-127 | Decryption inverts encryption byte by byte |
| Cipher.EncryptByteExactly | src/server/crypto.c:93-98 | The byte that is encrypted to c is ((c xor m2) + hash) xor m1 |
| Cipher.FatalMeaning | src/server/crypto.c:95-97 | Exactly the byte ((m2 + hash) mod 256) xor m1 encrypts to 0 |
| Cipher.RoundTripString | src/server/crypto.c:93-127 | Read as a C string, the round trip is the original cut before its first fatal byte; from the terminator on nothing changes |
| Cipher.RoundTripExact | src/server/crypto.c:93-127 | The buffer is restored if and only if the string has no fatal byte |
| Cipher.EncryptThenDecrypt | src/server/crypto.c:71-128 | Running one after the other on a buffer restores it if and only if the string has no fatal byte |
| Cipher.SafeKeys | src/server/crypto.c:71-128 | A key restores every string if and only if its fatal byte is 0; otherwise the string of that one byte is encrypted to nothing but terminators |
| Cipher.ShortKeysAreSafe | src/server/crypto.c:80-90 | Keys of at most one character restore every string |
| Cipher.UnsafeKey | src/server/crypto.c:71-128 | The key "aa" has the fatal byte 0x44, so "D" is not restored |
| StrHashtable.ComputeHash | src/game_processing/str_hashtable.c:25-41 | The loop computes the Jenkins fold |
| StrHashtable.HashOfA | src/game_processing/str_hashtable.c:25-41 | The published value of the one-at-a-time hash for "a" |
| StrHashtable.GameHashes | src/game_processing/game_functions.c:203-210 | The hashes of the five names of game functions, which are all different |
| StrHashtable.AppendStands | src/game_processing/str_hashtable.c:81-87 | Appending an absent hash to its bucket extends the finite map by that pair and keeps buckets free of repetition |
| StrHashtable.Table.constructor | src/game_processing/str_hashtable.c:44-53 | Stands for the empty map |
| StrHashtable.Table.WalkMeaning | src/game_processing/str_hashtable.c:110-123 | The walk decides membership, including the zeroed unused head for hash 0 |
| StrHashtable.Table.Add | src/game_processing/str_hashtable.c:56-96 | Succeeds exactly for non-NULL arguments and an absent hash, then extends the map and unlocks; a hash already there leaves the map alone and the mutex locked |
| StrHashtable.Table.Get | src/game_processing/str_hashtable.c:99-129 | Returns the map's value for the hash, or NULL |
| StrHashtable.FirstAddWins | src/game_processing/str_hashtable.c:78-79 | Over any run of adds the first add of a hash decides its value |
| StrHashtable.MapHolds | src/game_processing/str_hashtable.c:56-96 | During any run a hash is in the map exactly if some operation so far has tried to add it |
| StrHashtable.RunOps | src/game_processing/str_hashtable.c:44-129 | Any run of adds and gets through the code: gets answer from the first add of each hash; the run completes if and only if no operation that takes the mutex follows an add of a hash already there, and otherwise stops at the first such |
| StrHashtable.InitGameFunctions | src/game_processing/game_functions.c:198-222 | gfunc_init succeeds: all five adds do, the mutex is free afterwards, and each name finds its function |
| Bytes.SignExtendMeaning | src/game_processing/str_hashtable.c:31 | A char is promoted with its sign |
| Words.SpacesExactly | src/game_processing/shared_funcs.c:9 | The six space characters |
| Words.ToLowerExactly | src/game_processing/shared_funcs.c:18 | Each upper-case letter becomes its lower-case letter, all other characters stay |
| Words.GetWord | src/game_processing/shared_funcs.c:4-33 | Finds the next word, lower-cases it in place, puts NUL over the space after it, and advances |
| Words.AllWordsAreRuns | src/game_processing/shared_funcs.c:9-28 | The words found are exactly the maximal non-space runs, in order |
| Words.ReadWords | src/game_processing/shared_funcs.c:4-33 | Called until NULL, hands out the start of each run in order; the buffer changes only by lower-casing and by those NULs |
| Words.WordIsLowered | src/game_processing/shared_funcs.c:16-25 | Each word handed out is, as a C string, its run in lower case |

## Left out

- The GTK client, sockets, DNS, file and terminal I/O, the configuration file and the key-value database: plumbing and foreign code (sglib is not part of this model).
- `child_object` of a map cell: `map_generation` never sets it, so after loading it holds anything; with it go the messages that the tick sends to the characters it finds in the window. The window reads themselves are modelled.
- The length field and the coordinate text of the map reply, names, addresses and items of characters.
- `character_remove`: it does not renumber `id`, so no table invariant survives repeated removals; the tick machine has no removal.
- Spawn places: the callers use fixed coordinates without a check, so a free land cell is the precondition of `GameTick.Game.Add` and of the event `Join`.
- Levels below 1: every caller passes 1, and at level 0 the source takes a remainder by zero; a positive level is a precondition of `GameTick.Game.Add` and of `Join`.
- MapGeneration.PlaceSites: sizes below 2 are excluded, because there the halving loops never end, and so is size 3 with so few sites that the anchors would not fit the array.
- MapGeneration.MapGeneration: without any drawn site (factor 0) the whole map must be border, because otherwise `nearest_ground` returns an unset value.
- Buildings.TryPlace: one attempt at a sampled corner; the surrounding loop repeats until an attempt succeeds and need not end. Corners below the last row, or at the far end of it, both sampled only when `rand()` is exactly `RAND_MAX`, are excluded, because there the source reads past the map.
- Buildings.HavePlace: the same corners are excluded.
- GameTick.Game.ScanWindow: finds the marked cells and leaves out the messages sent for players among them, because character_add leaves `child_object` unset.
- GameTick.Game.TurnAndScan: leaves out the same messages.
- GameTick.Game.RunTick: nobody is added while a tick runs; newcomers between the turns of a tick are covered by `Ticks.RunKeeps`, whose runs interleave turns and newcomers freely.
- GameTick.Game.Add: the cell is free and the level positive; `Ticks.JoinExactly` shows that any other cell breaks the invariant.
- TickChase.HuntTurn: one foe; `Roam` has what holds for any number of them.
- GameTick.Game.TakeTurn: a turn is atomic; requests and newcomers fall between turns.
- PoolProgress.JobsGetThrough: says that the threads can go on to that point, not that a scheduler lets them.
- ThreadPool.StepKeeps: linking a node in or out under the mutex is one step; `JobList` proves the pointer code for that step. So is the locked part of `jqueue_destroy`; the look before it and the freeing of the head after it are steps of their own. What a producer does to the freed head is not modelled: the model ends there.
- `queue_destroy` and `str_hashtable_destroy`: they only free memory.
- StrHashtable.Table.Add: the table is used by one thread at a time, and one that waits for a held mutex stops there. Values are plain data, not references.
- `player_delete`, `server_thread` and `crypto_gen_key`: the first shifts contents rather than slots, the last depends on `strlen` of an unterminated array.
- Overflow at extreme sizes, levels and counts, and rounding in `sqrt`.
