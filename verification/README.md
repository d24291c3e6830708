# Verified models of the battle system

This project models four parts of the game server and proves what they promise.

**The deterministic battle engine** (`battle/battle/internal/engine`). Two teams of units share
an action-time gauge: the scheduler jumps to the next moment at which a living unit reaches the
threshold, that unit acts (periodic statuses, one skill on chosen targets, cooldowns, expiry) and
pays the threshold. Damage runs through five stages fed by SplitMix64; every change of hit points
is logged. `Engine.dfy` is the imperative program: classes `Unit` and `Battle` with the fields of
the Go structs, one method per Go function, each proved equal to a function of `BattleModel.dfy`.
`Rng.dfy`, `Damage.dfy`, `Config.dfy`, `Sorting.dfy` and `Choice.dfy` hold the random numbers, the
damage pipeline, setup validation, the contract of `sort.Slice` and the comparators. The theorems
about whole battles are in `Scheduler.dfy`, `Outcomes.dfy`, `EventLog.dfy`, `Lifetimes.dfy` and `Turns.dfy`; they
speak of `Head(env, Initial(setup), k)`, the battle at the head of the `Run` loop after k
iterations, for every valid setup, every dice and every k. `Frames.dfy` says what one action can change, and `Settlement.dfy` joins the imperative engine to them.

**The battle delivery protocol.** A manager (`BattleManagers.dfy`) spawns one actor per battle
(`BattleActors.dfy`), which saves a report (`Protocol.dfy`), sends Created, the action stream and
Finished to the game node that asked, and retries until the node's client (`BattleClients.dfy`)
confirms. `Delivery.dfy` composes all of them over a network that loses, duplicates and reorders
messages: a run is any sequence of steps, and each single effect of a handler is a step of its own,
so anything may happen between two sends. The handlers are the very functions the classes are proved against.

**The pending-request table of the RPC actor** (`NatsRpc.dfy`) and **the gateway's session table**
(`Gate.dfy`), as message-driven machines over every sequence of inputs.

Conventions. A pointer to a unit is the unit's index in the battle. What foreign code answers
(node selection, publishing, saving, encoding, a full mailbox, a fresh battle ID or agent identity)
is a parameter of the step. Each handler appends what it does to the outside to a log of effects,
and the theorems about runs count and order that log. `max(0, ...)`, truncating division and
64-bit wrap-around of the generator are written out; all other integers are unbounded, and
`Scheduler.NoSchedulerOverflow` discharges the 64-bit range for the scheduler.

Some things the code promises or suggests turn out false; each has its exact condition and a
concrete run in `Counterexamples.dfy` or beside it. Damage is not monotone in attack for every
configuration validation admits (`Damage.MonotoneForAllDice`). A periodic status with negative
potency drives hit points out of range (`Outcomes.GentleExactly`). A status of duration zero ticks
once (`Lifetimes.PeriodicsTickExactly`). Modifiers can carry a unit's speed out of int64
(`Lifetimes.SpeedFitsExactly`). A user's session can end without a notice to
the game (`Gate.NoticesAreExact`). And a client session that adopts a late Created of an already
applied battle can never end again (`BattleClients.RunningEndsExactly`), although the client's
comment promises recovery by Created or Finished.

## Model

| member | source | states |
|---|---|---|
| Rng.RNG.Uint64 | battle/battle/internal/engine/rng.go:8-14 | The n-th call on a generator returns the n-th word of the sequence its seed determines, wrapping at 2^64 |
| Rng.MixIsBijective | battle/battle/internal/engine/rng.go:10-13 | The output mix is a bijection on 64-bit words: an explicit two-sided inverse |
| Rng.StateClosedForm | battle/battle/internal/engine/rng.go:9 | After k draws the state is seed + k times gamma modulo 2^64 |
| Rng.OutputsNeverRepeat | battle/battle/internal/engine/rng.go:8-14 | Any 2^64 consecutive outputs are pairwise distinct and then the sequence repeats: the period is exactly 2^64 |
| Rng.OutputClosedForm | battle/battle/internal/engine/rng.go:8-14 | Every output written out from seed and position with the constants and shifts of the code |
| Damage.Calculate | battle/battle/internal/engine/damage.go:52-57 | The loop over stages threads amount and generator through them in order, drawing words exactly where the stages do |
| Damage.PipelineIsClosedForm | battle/battle/internal/engine/damage.go:22-57 | The five stages compute the closed form: at least 1, and exactly [variance > 0] + [crit chance > 0] draws whatever the combatants' stats |
| Damage.DamageBounds | battle/battle/internal/engine/damage.go:29-48 | For non-negative coefficients and variance up to 1000 the amount lies between the truncated low and high roll, times the multiplier exactly on a critical hit |
| Damage.DamageMonotone | battle/battle/internal/engine/damage.go:22-57 | For the same generator state, more attack or less defense never lowers damage and changes neither the critical flag nor the draws |
| Damage.MonotoneExactlyWhenSafe | battle/battle/internal/engine/damage.go:22-57 | For every configuration and generator state, damage is monotone in attack and defense if and only if the signs of coefficient, roll and multiplier do not turn it round, or even the weakest hit is floored to 1 |
| Damage.MonotoneForAllDice | battle/battle/internal/engine/damage.go:22-57 | A configuration is monotone under all dice if and only if every factor it can roll is safe, a check over finitely many factors |
| Counterexamples.NegativeMultiplierWeakens | battle/battle/internal/engine/damage.go:38-43 | With a negative critical multiplier attack 1 deals 99 and attack 50 deals 50 |
| Config.Validate | battle/battle/internal/engine/types.go:102-138 | No error exactly for valid setups; otherwise the first fault: of the header, else of the first unit at fault, else, all units being faultless, the missing team |
| Sorting.AnySortingIsSorted | battle/battle/internal/engine/battle.go:146-158 | Under a strict total order every sorting permutation of every arrangement of the elements is the same sequence |
| Choice.RatiosAreTransitive | battle/battle/internal/engine/battle.go:245-251 | Comparing HP ratios by cross-multiplication is transitive, ties included |
| Choice.WeakerThanIsStrictTotal | battle/battle/internal/engine/battle.go:245-251 | The lowest-HP comparator is a strict total order on units with distinct IDs |
| Choice.ActsBeforeIsStrictTotal | battle/battle/internal/engine/battle.go:146-158 | The acting comparator is a strict total order on units with distinct IDs |
| Choice.ActorChoiceIsUnique | battle/battle/internal/engine/battle.go:140-163 | Whatever order the ready units come in and whichever sorting the unstable sort returns, the same unit acts |
| Choice.PickedActsFirst | battle/battle/internal/engine/battle.go:140-163 | If anyone is ready someone is picked, and the picked unit precedes every other ready unit |
| Choice.TargetChoiceIsUnique | battle/battle/internal/engine/battle.go:222-257 | The target list does not depend on the unstable sort |
| Choice.EnemyAllHitsEveryEnemy | battle/battle/internal/engine/battle.go:229-238 | The target list of ENEMY_ALL holds every living enemy, in the order of the comparator (that they are hit: Turns.EveryTargetIsHurt) |
| Choice.EnemySingleHitsTheFront | battle/battle/internal/engine/battle.go:229-238 | ENEMY_SINGLE hits exactly one living enemy, the least in position order |
| Choice.AllyLowestHpHitsTheWeakest | battle/battle/internal/engine/battle.go:239-255 | ALLY_LOWEST_HP hits exactly one living ally, the one with the least HP ratio |
| Common.StringLessIsAlphabetical | battle/battle/internal/engine/battle.go:157 | The comparison of IDs is the alphabetical one: longer, or larger at the first difference |
| Choice.PickedIsForemost | battle/battle/internal/engine/battle.go:146-162 | The unit picked has the largest gauge, then the largest speed, then the foremost position, then the smallest ID, on the units' own figures |
| Choice.TargetsAreAimed | battle/battle/internal/engine/battle.go:222-257 | Each target rule on teams, hit points, positions and IDs alone: oneself, the foremost living enemy, all living enemies in order, the living ally with the smallest share of hit points |
| Choice.ModifierIsSum | battle/battle/internal/engine/battle.go:34-44 | Each figure of a modifier is the sum of that figure over the running statuses |
| Choice.SkillChoiceExactly | battle/battle/internal/engine/battle.go:204-213 | The first active skill off cooldown is used; silence, or none being ready, means the basic skill |
| Engine.Compact | battle/battle/internal/engine/battle.go:193-202 | Compacting the status list inside its own backing array keeps exactly the surviving statuses, aged by one, in order |
| Engine.Battle.PickNextActor | battle/battle/internal/engine/battle.go:114-163 | The new state and the chosen unit are those of the model's time jump and choice |
| Engine.Battle.PickTargets | battle/battle/internal/engine/battle.go:222-257 | The targets collected and sorted are the model's target list |
| Engine.Battle.ApplyEffect | battle/battle/internal/engine/battle.go:259-282 | One effect changes hit points, draws and log as the model's effect does; a dead target is left alone |
| Engine.Battle.ExecuteAction | battle/battle/internal/engine/battle.go:284-309 | A whole action in place equals the model's action, for every state of the units |
| Engine.Battle.Run | battle/battle/internal/engine/battle.go:312-344 | The first Run returns the sealed result of the model's loop, later ones the cached result unchanged |
| Turns.ShotIsLogged | battle/battle/internal/engine/battle.go:259-282 | One effect on a living target: damage is min(hp, the pipeline's amount for the actor's attack and the target's defense with their modifiers and the configured figures), healing likewise, with the event, the hit points and the words drawn that go with it |
| Turns.EveryActionIsLogged | battle/battle/internal/engine/battle.go:284-309 | In every run each action logs ActionStarted, the due ticks, then the skill the unit has to use with each effect on each right target in order while it lives, with exact figures, or the skipped turn, and ActionEnded; nothing else |
| Turns.EveryTargetIsHurt | battle/battle/internal/engine/battle.go:293-300 | A turn with a damaging skill that never heals costs every unit aimed at hit points, with ENEMY_ALL every living enemy |
| Engine.NewBattle | battle/battle/internal/engine/battle.go:64-77 | A battle is built exactly for valid setups, in the initial state, with the five stages and the generator the setup seeds |
| Settlement.Settle | battle/battle/internal/actor.go:59-71 | Building and running a battle in place answers exactly the result the model assigns to a valid setup |
| Scheduler.JumpRefinesTicks | battle/battle/internal/engine/battle.go:114-139 | The event-driven jump ends in the very state a clock reaches that ticks once at a time until somebody is first ready |
| Scheduler.SomeoneActs | battle/battle/internal/engine/battle.go:129-163 | While a battle is undecided an actor is always found |
| Scheduler.LoopIsHead | battle/battle/internal/engine/battle.go:317-327 | The Run loop never takes its error return and ends in the n-th head state |
| Scheduler.GaugeIsConserved | battle/battle/internal/engine/battle.go:132-139 | At every loop head, gauge + threshold times actions taken equals the gauge supplied by all jumps; the clamp at zero never takes anything |
| Scheduler.SchedulerBounds | battle/battle/internal/engine/battle.go:114-139 | Gauges stay in 0 .. threshold + largest possible speed, and the tick is at most k times the threshold |
| Scheduler.NoSchedulerOverflow | battle/battle/internal/engine/battle.go:34-48 | If sums of configured values fit int64, no value the scheduler computes in any iteration leaves int64: the running sums of modifiers, the speed, the ticks needed, the jump and the payment |
| Lifetimes.SpeedFitsExactly | battle/battle/internal/engine/battle.go:34-48 | At every point of every run the sums on the way to a unit's speed stay in int64 if and only if those of the configured statuses in force after its number of actions do |
| Counterexamples.SlowdownsOverflow | battle/battle/internal/engine/battle.go:34-48 | A validated setup whose speed sum leaves int64, as validation bounds no modifier |
| Scheduler.ProportionalFairness | battle/battle/internal/engine/battle.go:114-139 | Without speed-changing statuses, T*acts <= speed*tick < T*acts + T + speed for every living unit |
| Outcomes.OneTeamFalls | battle/battle/internal/engine/battle.go:284-309 | One action kills units of one team only |
| Outcomes.OutcomeIsExact | battle/battle/internal/engine/battle.go:99-112 | DRAW exactly when MaxActions actions were executed and both teams stand; otherwise the named winner stands and the loser has nobody |
| Outcomes.RunAlwaysAnswers | battle/battle/internal/engine/battle.go:312-344 | On a valid setup Run always has a result, and it is a function of the setup alone |
| Outcomes.BattleDrawsItsSeed | battle/battle/internal/engine/battle.go:64-77 | A battle plays by its own rules, through the five stages in order, on the words of its own seed, each written out |
| Outcomes.ResultIsTruthful | battle/battle/internal/engine/battle.go:328-343 | The result lists every unit as it ended, the tick reached and the whole log; outcome and closing event name the winner that the unit list shows |
| Outcomes.GentleExactly | battle/battle/internal/engine/battle.go:175-191 | A periodic status keeps every living unit within 0..MaxHP if and only if its potency is at least 0 (DOT) or -1 (HOT) |
| Counterexamples.NegativeDamageOverheals | battle/battle/internal/engine/battle.go:175-191 | A validated setup in which somebody has 101 of 100 hit points after one action |
| Outcomes.HpStaysInRange | battle/battle/internal/engine/battle.go:175-191 | If every initial status is gentle, hit points stay within 0..MaxHP at every point of every run |
| Outcomes.StepDrains | battle/battle/internal/engine/battle.go:284-309 | In an aggressive configuration every action lowers total hit points |
| Outcomes.AggressionIsDecisive | battle/battle/internal/engine/battle.go:312-330 | Then a cap of at least total MaxHP - 1 guarantees a winner, whatever the dice |
| EventLog.LogReplaysTheBattle | battle/battle/internal/engine/battle.go:82-88 | At every point the log is numbered 1..n, never runs backwards, and replaying it from full health meets every figure and ends at the current hit points; the dead never act, heal or get hit |
| EventLog.ResultReplays | battle/battle/internal/engine/battle.go:331-341 | The published event list replays from MaxHP to the published unit list |
| Lifetimes.StatusLifetime | battle/battle/internal/engine/battle.go:193-202 | A unit carries exactly the initial statuses it has not outlived, in order, aged by its own number of actions |
| Lifetimes.StatusesActOnFirstActions | battle/battle/internal/engine/battle.go:25-48 | Stun, silence and modifiers are in force during exactly the first d actions of their owner |
| Lifetimes.PeriodicsTickExactly | battle/battle/internal/engine/battle.go:175-191 | In every run the log of a unit's (n+1)-th action is ActionStarted, then one tick for each initial DOT or HOT with n = 0 or a duration above n, in order, with exact figures and up to the unit's death, then the turn |
| Counterexamples.DurationZeroTicks | battle/battle/internal/engine/battle.go:175-202 | A validated setup whose status of duration zero deals its damage in the first action |
| Lifetimes.CooldownCounts | battle/battle/internal/engine/battle.go:165-173 | After a use the stored cooldown counts down by one per own action, stunned and silenced ones included |
| Lifetimes.CooldownSpacing | battle/battle/internal/engine/battle.go:204-213 | Two uses of a non-basic skill by one unit are at least its cooldown of own actions apart |
| Lifetimes.CooldownsStayConfigured | battle/battle/internal/engine/battle.go:301-303 | Every stored cooldown is between 1 and what an active skill of that ID configures |
| Protocol.MemoryRepository.MarkConfirmed | battle/battle/internal/memory_repository.go:55-65 | Confirming a stored report sets its flag; an unknown battle is reported and nothing changes |
| Protocol.ConfirmOnlyConfirms | battle/battle/internal/memory_repository.go:55-65 | Confirming is idempotent and touches nothing but the flag of that report |
| BattleActors.BattleActor.OnInit | battle/battle/internal/actor.go:59-99 | The state after OnInit and the exact order of its effects: created, save, actions, finished, retry; failures release the actor |
| BattleActors.BattleActor.HandleTick | battle/battle/internal/actor.go:142-148 | A tick resends Finished or, when the attempts are used up, releases the actor |
| BattleActors.BattleActor.HandleConfirm | battle/battle/internal/actor.go:151-159 | A confirmation of another battle is ignored; one's own is stored and releases the actor |
| BattleActors.RunsExactly | battle/battle/internal/actor.go:59-133 | A run-mode battle announces, saves its result unconfirmed, and sends the asking node every event in order and then the outcome with its units and checksum; a failure before the save only ends it |
| BattleActors.RedeliversExactly | battle/battle/internal/actor.go:85-98 | Redelivery sends the stored stream to the node that asks now, saves nothing, and ends at once if the report was confirmed |
| BattleActors.HandlesExactly | battle/battle/internal/actor.go:142-172 | At any point of a life: a tick resends the saved outcome or releases, the own confirmation is stored and releases, and a released actor stops its timer and says farewell only once |
| BattleActors.RetryIsBounded | battle/battle/internal/actor.go:57-179 | Over every life: a begun, unreleased actor has exactly one retry outstanding; Finished is sent at most max(1, RetryAttempts) times even with stale ticks; the manager is told at most once |
| BattleActors.SilenceReleases | battle/battle/internal/actor.go:135-148 | Left without confirmation, an actor is released once its remaining attempts have gone by |
| BattleManagers.Server.OnCreateBattle | battle/service/internal/ctl_battle.go:17-51 | Exactly well-formed requests spawn one fresh run-mode actor and enter it in the registry |
| BattleManagers.Server.OnActorStopped | battle/service/internal/ctl_battle.go:54-64 | An entry is removed exactly if battle and actor identity match |
| BattleClients.Client.HandleMessage | game/battleclient/client.go:102-119 | Every message moves the records, the completed table and the outgoing effects as the model says |
| BattleClients.ClientIsDisciplined | game/battleclient/client.go:130-234 | Over every message sequence: a Start only after the previous one failed or a result was applied; battle ID write-once within an epoch; an event pushed only while its battle is announced and unfinished, and never twice; LastSequence is the maximum seen; a Finished record's checksum is on file |
| BattleClients.BeginsExactly | game/battleclient/client.go:130-160 | After any run a Begin sends a Start, to the node picked, if and only if the player has no open session |
| BattleClients.ResetsExactly | game/battleclient/client.go:221-234 | After any run a Reset wipes the record if and only if the player has no open session |
| BattleClients.ActionsExactly | game/battleclient/client.go:178-198 | After any run an event is shown if and only if its battle is under way for the player and its sequence was not shown in this epoch |
| BattleClients.ResultsExactly | game/battleclient/client.go:200-219 | After any run a result that concerns the epoch is applied if and only if that battle's result never was, and confirmed to the epoch's node in any case, duplicates included |
| BattleClients.StateIsExact | game/battleclient/client.go:236-242 | The state a player is told after any run, field by field, from what the client did before: status, battle, node, largest sequence shown, checksum |
| BattleClients.StartsAreSeparated | game/battleclient/client.go:130-160 | Between two successful Starts for a player a result was applied for that player |
| BattleClients.EpochIsAboutOneBattle | game/battleclient/client.go:178-198 | Everything pushed in an epoch is about one battle and no event sequence is pushed twice |
| BattleClients.ResultAppliedAtMostOnce | game/battleclient/client.go:200-219 | One client applies a battle's result at most once over its whole life |
| BattleClients.AdoptsExactly | game/battleclient/client.go:162-176 | After any run a Created is shown if and only if the log says the player's epoch waits for a battle, whichever it is, or is about this battle and unfinished |
| BattleClients.RunningEndsExactly | game/battleclient/client.go:162-234 | Some message can end a running session if and only if its battle's result was not yet applied |
| BattleClients.StuckForever | game/battleclient/client.go:200-234 | Once a session runs for an applied battle, no sequence of messages ever frees the player |
| BattleClients.LateCreatedIsAdopted | game/battleclient/client.go:162-176 | A concrete run in which the late Created of a finished battle captures the next session for good |
| Delivery.ActorsAreExactlyTheRequested | battle/service/internal/ctl_battle.go:17-46 | In every run a battle has an actor exactly when some request naming a user, a server, a node and a battle type drew a seed for it |
| Delivery.RequestIsServed | battle/service/internal/ctl_battle.go:32-46 | Everything ever sent about a battle, and its report, goes to the server, node and player of the request that started it, with at most three Finished |
| Delivery.ConfirmedMeansApplied | battle/battle/internal/actor.go:151-159 | In every run a report marked confirmed was applied by the client of the node on file (the asking one: Delivery.RequestIsServed), with the checksum of the saved report |
| Delivery.OneResultIsEnough | game/battleclient/client.go:200-219 | Whenever a Finished that concerns the player's session gets through, its confirmation can get the report confirmed and the actor released |
| Delivery.SavedBeforeSent | battle/battle/internal/actor.go:70-94 | No Action or Finished is ever in flight before its report is saved; it is addressed to the node on file and agrees with the report |
| Delivery.AppliedAtMostOnce | game/battleclient/client.go:208-217 | Over all nodes and the whole run each battle's result is applied at most once |
| Delivery.ShownEventsAreReal | game/battleclient/client.go:178-198 | Every event a player is shown is an event of the saved report of that battle, on the node on file for it |
| Delivery.RegistryIsExact | battle/service/internal/ctl_battle.go:17-64 | The registry holds exactly the actors whose stop report was not read yet; whoever left it is released |
| Delivery.NoStepLosesGround | battle/battle/internal/actor.go:135-172 | No step of anybody increases a begun battle's distance from leaving the registry, and each of its own moves decreases it |
| Delivery.EveryScheduleDrains | battle/service/internal/ctl_battle.go:54-64 | Whatever is interleaved, a begun battle leaves the registry once it made as many own moves as its distance, and until then one is always possible |
| Delivery.RegistryDrains | battle/service/internal/ctl_battle.go:54-64 | From every reachable state the battle process alone can empty the registry, even if every outgoing message is lost |
| NatsRpc.Nats.DoSendCall | natsrpc/internal/handle.go:169-218 | A call ends answered at once on any local failure, or pending under a new session with its timer |
| NatsRpc.Nats.DoFinishPending | natsrpc/internal/handle.go:224-235 | Finishing a session removes it and its timer and answers its envelope; an unknown session changes nothing |
| NatsRpc.Nats.OnStop | natsrpc/internal/nats.go:119-131 | Whatever order the table is visited in, every pending envelope is answered and the table is empty |
| NatsRpc.EveryCallIsAccountedFor | natsrpc/internal/handle.go:119-235 | Over every interleaving of calls, casts, acks, timeouts, failures and stops: issued sessions are the disjoint union of pending and settled ones, running timers belong to pending sessions, and each caller asked exactly as often as it was answered or still waits |
| NatsRpc.AnsweredExactlyOnceAfterStop | natsrpc/internal/nats.go:119-131 | No envelope is answered more often than it asked, after a stop exactly as often, and no timer runs |
| NatsRpc.SettledForGood | natsrpc/internal/handle.go:61-71 | Once a session is settled no continuation answers it again, and late acks and timeouts for it change nothing |
| NatsRpc.AnswersReachTheirCaller | natsrpc/internal/handle.go:205-234 | In every run the answer of a session goes to the envelope of the very call the session was issued to |
| NatsRpc.AnswersAreExact | natsrpc/internal/handle.go:61-71 | After any run a pending session's ack hands its caller exactly the decoded body or the decoding fault, its timeout the timeout, and a running timer is disarmed |
| NatsRpc.StopAnswersTheWaiting | natsrpc/internal/nats.go:119-131 | A stop tells exactly the callers still waiting that the actor stopped |
| NatsRpc.AnswersWereReceived | natsrpc/internal/handle.go:220-235 | Every value a caller was ever given had arrived in an ack of its own session, every timeout had happened |
| NatsRpc.CallsExactly | natsrpc/internal/handle.go:169-218 | After any run an encodable call is published to its target under a session never issued before, with the caller's return address, and is then timed or, on failure, answered; a number is spent once the payload is encoded |
| NatsRpc.CastsExactly | natsrpc/internal/handle.go:119-150 | A cast is published to its target with the target's numbers and answered once |
| NatsRpc.AckComesBackExactly | natsrpc/internal/handle.go:184-198 | The ack reaches the caller's own subject if and only if the call names no foreign module and the caller's numbers fit int32 |
| Gate.GateActor.OnOpenSession | game/gate/internal/service.go:91-116 | A login replaces the user's session by one of a new generation and stops the old agent; others are refused |
| Gate.GateActor.OnBanUID | game/gate/internal/service.go:145-154 | A ban is recorded and closes the user's session, with a notice if the game can be looked up; user 0 cannot be banned |
| Gate.BansExactly | game/gate/internal/service.go:145-158 | After any run exactly the users last banned, never user 0, are on the list |
| Gate.BansEndSessions | game/gate/internal/service.go:145-158 | After any run a ban ends exactly the session its user has, with a notice when the game is found, and an unban ends none |
| Gate.PushesExactly | game/gate/internal/service.go:131-143 | After any run a push reaches exactly the agent of its user's session, or ends the session if that agent's mailbox is full |
| Gate.GateActor.OnStop | game/gate/internal/service.go:81-89 | Whatever order the table is visited in, every agent is stopped and the table is empty |
| Gate.SessionsAreSane | game/gate/internal/service.go:91-170 | In every reachable state no banned user has a session, generations and agents are never reused, and an agent is current exactly as long as it was not told to stop |
| Gate.CloseHitsOnlyItsOwn | game/gate/internal/service.go:118-129 | The close of any agent ever spawned ends that agent's session if it is current and otherwise changes nothing |
| Gate.ClosesExactly | game/gate/internal/service.go:118-129 | After any run a close takes effect if and only if it names agent and generation of the session that stands |
| Gate.LoginSucceedsExactly | game/gate/internal/service.go:91-116 | A login is let in if and only if it is one and the user is not banned; it is younger than every earlier agent and all earlier agents of the user are stopped |
| Gate.RefusalsAreExact | game/gate/internal/service.go:91-106 | After any run a login is refused if and only if it is none or its user is banned, and then nothing changes |
| Gate.StopLeavesNoAgent | game/gate/internal/service.go:81-89 | After a stop every agent ever spawned was told to stop |
| Gate.SessionsAreDistinct | game/gate/internal/service.go:108-112 | Two users never share an agent or a generation |
| Gate.UnheardBan | game/gate/internal/service.go:145-176 | A concrete run in which a ban ends a session and the game is told nothing |
| Gate.NoticesAreExact | game/gate/internal/service.go:118-176 | A game that takes users for present until told otherwise is right about a user if and only if his last session did not end by a stop or while the game could not be looked up |

## Left out

- Outcomes.HpStaysInRange: one direction over a whole run; that a status leaves the range needs a unit that is alive with the right hit points when it ticks, so the equivalence is stated per tick (`Outcomes.GentleExactly`).
- Outcomes.AggressionIsDecisive: sufficient only; other configurations may also be decided before the cap.
- Scheduler.NoSchedulerOverflow: a sufficient condition on the configuration (exact for the speed alone: `Lifetimes.SpeedFitsExactly`); covers the scheduler's values; damage, healing and the cross-multiplied HP ratios are unbounded integers here, since validation bounds none of their inputs.
- NatsRpc.EveryCallIsAccountedFor: session numbers are unbounded; after 2^63 requests the Go counter wraps.
- Gate.NoticesAreExact: speaks of the closing notices alone; that the agent forwards the login to the game, and in which order the game receives the two, is not modelled.
- Delivery.EveryScheduleDrains: about battles that have begun; that the actor library runs OnInit of every spawned actor is not modelled, so an actor may stay unbegun here.
- Gate.SessionsAreSane: generations are unbounded (Go wraps after 2^64 logins) and agent identities are assumed fresh, as the actor library promises.
- Delivery.ConfirmedMeansApplied: a confirmation is delivered by battle ID alone; the node address it carries, which the client takes from its current session, is ignored, so more confirmations arrive here than in the system.
- Actor messages after a stop request may still be handled here (ticks, confirmations); the actor library may drop them. This only adds runs.
- The manager's actors run in ModeRun; redelivery (ModeRedeliver) is modelled in the actor but no one spawns it, as in the code.
- The client's replies to Begin and Reset: the record they carry is the one `BattleClients.StateIsExact` describes, their errors are dropped.
- The checksum is an uninterpreted function of the result; JSON and SHA-256 are not modelled, nor is its error return.
- Error texts are reduced to a field and a reason, without the quoted identifier; timestamps of reports are dropped.
- Records behind pointers (client records, units in slices) are values in maps or objects owned by the battle; a nil message is one whose fields are zero.
- `Statuses` of a unit is a sequence; that the compaction may share the backing array is modelled in `Engine.Compact` alone.
- Listing reports by player, and the factory: how configuration rows are looked up, checked and turned into a setup. A battle starts here from the finished setup.
- Routing of inbound requests to local actors (`NatsMsgReq`, `NatsMsgNtf`) and the textual form of a subject; an address is a record.
- The agent of the gateway (rate limit, stream sends) appears only through the close messages it may send.
- NATS, gRPC, timers, MongoDB, protobuf encoding, logging and authentication: foreign calls, present as answers and effects only.
- int64 range of client and actor counters, mailbox sizes, and message delivery order guarantees of a particular transport.
