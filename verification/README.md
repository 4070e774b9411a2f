# go-boot, modelled and proved in Dafny

go-boot starts a service's Components in order, tells Kubernetes when the service is ready, reads its
configuration in layers, consumes from Kafka and RabbitMQ, and serves HTTP through a chain of middleware. This
project models the parts of it that keep state over a whole run, and proves what every run keeps.
`dafny verify dfyconfig.toml` checks all of it. `Wrappers` holds the two datatypes several modules share.

## The parts

**Configuration** (`Sections`, `Keys`, `ConfigTree`, `Text`, `Config`, `Lines`, `Variables`, `Loaded`, `Unreached`).
`Sections` is the value a merge leaves behind and its algebra; `ConfigTree` is the same merge done in place on maps
that point at one another, with the recursive `Merge` and the cursor walk of `Set`; `Config` is canonMap, the
properties parser, the environment layer and Load. The main results: the last layer that claims a path decides it and
nothing earlier shows through; merging is associative exactly when no layer turns back into a section what the one
before it made a leaf, over something an earlier layer had there; a document is refused exactly when a section reached
by keys holds two spellings of a key; neither map order nor environment order shows in the result. `Lines` and
`Variables` say what one line of a file and one variable contribute, in terms of their text, and `Loaded` what a whole
Load shows at a path. `Unreached` is about the maps inside lists, and inside mappings with a key that is no string,
which the code does not look into.

**The Kafka consumer** (`KafkaBatch`, `KafkaLoop`, `KafkaConsumer`, `KafkaShutdown`, `KafkaDelivery`,
`KafkaRedelivery`). The goroutines of one batch, with the mutex, the WaitGroup and a ledger of every Handler call; the
fetch loop against Drain and Stop; the two put together under one scheduler, with what they keep and how they end; and
delivery over any number of polls, where a record counts as handled when a Handler call on it succeeded. A schedule is
any sequence of enabled steps, so every theorem holds for every interleaving. The append to the shared slice is a read
and a write of its own, so losing a record is something the mutex has to prevent.

**The App** (`App`, `Phases`, `Watchers`, `AppRun`, `Readiness`). Start, Stop and Run leave exactly one trace for each
list of Components and each set of outcomes, and the stored readiness flag is what that trace makes it at every event;
`Phases` is the order of the shutdown read off that trace; the watcher goroutines and their two channels are a machine
of their own, which `AppRun` puts together with Run; and `Readiness` compares `/readyz` with the gRPC health answer at
every moment.

**HTTP** (`Recorders`, `Middleware`, `Statuses`). The two response recorders, nested in any order around a model of the
net/http writer, and the chain built in Start run on one request: a return, a panic at any point, or an abort;
`Statuses` says in numbers which status and how much body a client gets.

**The signing keys** (`Jwks`): the cache, its refetch floor, and any sequence of calls on it.

**The RabbitMQ consumer** (`Rabbit`, `RabbitStop`): the settling of each delivery, and a machine of the loop, the
broker's streams, Drain and Stop, with exactly when the loop comes to its end.

## Where the code and its comments part

kafka/kafka.go:90-92 says that a record whose Handler failed, and everything after it on the partition, is delivered
again. Within one poll nothing after the first failure is called or committed (`KafkaBatch.CalledInOrder`,
`KafkaBatch.CommitsLeadingRuns`). Across polls it depends on where the client resumes, and nothing in `consume` makes
it go back: the consumer takes any batches in any order (`KafkaRedelivery.AnyBatches`), and
`KafkaRedelivery.CarryingOnHappens` is a run in which the second batch starts behind a failed record and its commit
passes it. What does hold is `KafkaDelivery.AtLeastOnceIff`, and `KafkaConsumer.AtLeastOnceEndToEnd` for the whole
consumer: every record below the committed offset has been handled exactly when each poll that commits something
started no later than the first unhandled record. `KafkaDelivery.SafeStartIff` is the same as a guard on the start.

config.go:275-278 and 291-293 say that every layer is canonical before the merge and that two spellings of one key in
one document are an error. canonMap (config.go:304-311) goes down only into maps with string keys, so neither holds of
a map inside a list, nor of one inside a mapping that has a key which is no string and so comes out of the YAML parser
as a map of another type. `servers: [{Read-Timeout: 1, readTimeout: 2}]` and `limits: {8080: {Read-Timeout: 1,
readTimeout: 2}}` are both accepted and keep both keys (`Unreached.ReadTimeoutEscapes`); a list in the environment or a
properties file (config.go:251-255) does the same. `Unreached.AcceptedDocument` and `Unreached.LoadedEverywhereIff` say
exactly when the two hold of every map.

rabbit/rabbit.go:325-343 says that Drain stops the broker sending. It cancels the channel the Component holds, and
while a dial is under way that is none: the stream the dial then opens stays open until Stop.
`Rabbit.MissedDialHappens` is a run that does this, `Rabbit.DrainMissesIff` the exact guard at the moment Drain is
about to read the channel, and `Rabbit.LoopEndsIff` says when the loop ends as things then stand.

config.go:318-328 gives no grouping law, and there is none in general: `Sections.GroupingMatters` is three layers that
differ by grouping, `Sections.AssociativeIff` says exactly which do not.

## Model

| member | source | states |
|---|---|---|
| Sections.LookOverlay | config.go:318-328 | at every path a merge shows what the source shows if the source claims the path (anything there, or a leaf above it), and otherwise what was there before; a list, or a mapping with a key that is no string, is one leaf and replaced wholesale |
| Sections.LastClaimWins | config.go:60-77 | over any fold of layers, the last layer that claims a path decides what is found there; nothing of an earlier layer shows through |
| Sections.NoClaimNothing | config.go:60-77 | a path no layer claims is absent from the fold |
| Sections.LookDetermines | config.go:318-328 | two documents that show the same at every path are equal, so the path laws settle the merge completely |
| Sections.OverlayIdempotent | config.go:318-328 | merging a document into itself changes nothing |
| Sections.EmptyNeutral | config.go:59-60 | the empty map is neutral on both sides |
| Sections.AssociativeIff | config.go:318-328 | the grouping of three layers does not matter if and only if no path is something in the first, below a leaf of the second, below a section of the third, and unclaimed by the third |
| Sections.SameKindsAssociative | config.go:318-328 | layers that agree on which paths are sections and which leaves merge in any grouping |
| Sections.GroupingMatters | config.go:318-328 | a section, a leaf and a section again give different results by grouping |
| Sections.OneLeafOver | config.go:262-273 | laying one leaf at a path reads it back, makes every proper prefix a section, clears everything below, and leaves every incomparable path alone |
| Keys.Relax | config.go:279-289 | the rune loop builds the canonical spelling of the key |
| Keys.CanonShape | config.go:275-278 | a canonical key has no dash, underscore or capital, and a key with none of these is kept as it is |
| Keys.DashBlind | config.go:279-289 | a dash or an underscore at any place in a key does not show in its canonical spelling |
| Keys.CaseBlindIff | config.go:279-289 | two keys without any have one canonical spelling if and only if they are as long and agree character by character up to the case of an ASCII letter, by code point |
| Keys.CanonIdempotent | config.go:275-289 | the canonical spelling of a canonical spelling is itself |
| Keys.CanonKeepsPaths | config.go:291-313 | a canonical document shows at the canonical path whatever the original showed at the path |
| Keys.CanonAddsNothing | config.go:291-313 | and it shows nothing that no spelling of the path showed |
| Keys.CanonValueCanonical | config.go:291-313 | every key of every section of it that is reached by string keys through sections is canonical |
| Keys.OverlayCanonical | config.go:276-278 | a merge of documents whose sections reached by keys are canonical is one |
| ConfigTree.Merge | config.go:318-328 | the in-place recursive merge leaves exactly the overlay of the two documents in the destination, keeps the source as it was, and stays inside the two maps' own nodes |
| ConfigTree.MergeKey | config.go:320-326 | one key of the merge: two sections are merged, anything else takes the source's value |
| ConfigTree.Set | config.go:262-273 | the cursor walk leaves exactly the document with the one-leaf document of the canonical path laid over it, replacing a leaf in the way |
| ConfigTree.Descend | config.go:264-271 | one turn of the walk moves to the section under the key, making it when there is none, without changing what the finished walk will leave |
| ConfigTree.Write | config.go:272-272 | the last assignment of the walk finishes the overlay |
| Config.CanonMap | config.go:294-313 | fails exactly when some section reached by string keys, at whatever depth, holds two spellings of one key; otherwise builds the one canonical document, its leaves (lists, and mappings with a key that is no string, among them) as they were, whatever order the map yields its keys in |
| Config.CanonEntry | config.go:304-311 | one value of the document: a section is converted in its turn or refuses the whole document, anything else is kept, a list or a mapping with a key that is no string included |
| Config.FirstSeparator | config.go:200-210 | the returned index is the first position of either separator, and -1 means there is none |
| Lines.LineKinds | config.go:167-182 | with the space around it off, a line is skipped exactly when it is empty or begins with # or !, and refused before its separator exactly for a backslash before a u, a last backslash, or neither = nor : in it, the first that holds naming the error |
| Lines.KeyedLine | config.go:179-195 | any other line, whatever the space around its key and its value, is refused for an empty key, an escape or a bracket in it, in that order, and otherwise gives the key split at its dots with the value as parsed |
| Config.ParseProperties | config.go:165-196 | refuses at the first bad line, naming it and what is wrong; otherwise leaves the fold of its entries in line order |
| Config.LastEntryWins | config.go:194-195 | among entries folded in order the last one comparable with a path decides it, and an entry no later one crosses is read back |
| Config.EnvLayer | config.go:214-230 | the layer built in place is the fold of the variables under the prefix, the Profile variable left out, in sorted order; the Variables rows say what that shows |
| Variables.OneVariable | config.go:218-228 | one variable alone: the layer shows the text behind the first = as parsed, at the key its name without the prefix spells, sections on the way there and nothing anywhere else |
| Variables.LastVariableDecides | config.go:216-228 | of several variables the last in sorted order that has to do with a path decides what the layer shows there |
| Variables.UnsetShowsNothing | config.go:218-228 | a path no variable has to do with shows nothing |
| Variables.ForeignAddsNothing | config.go:219-226 | a variable that does not begin with the prefix, and the Profile variable in any spelling, leaves the layer as it would be without it |
| Config.EnvOrderFree | config.go:216-217 | every permutation of the environment gives the same layer |
| Config.ParserFor | config.go:143-152 | YAML for exactly .yaml and .yml, properties for exactly .properties, and nothing for any other extension |
| Text.ExtNone | config.go:144-144 | a path has no extension only where every dot in it has a separator behind it |
| Config.Load | config.go:50-78 | refuses exactly an empty prefix, an unsupported extension or an unusable file, in that order and naming the first such file; otherwise what it hands to the decoder is the stack of every file layer in order with the environment on top |
| Loaded.LoadShows | config.go:59-77 | a path the environment claims shows what the environment shows; any other shows what the last file that claims it shows, and nothing if none does |
| Loaded.FileShows | config.go:62-76 | a YAML file shows at the canonical path what its document shows at any spelling of it and nothing more, a properties file what its lines decide, an absent file nothing |
| Loaded.LastLineDecides | config.go:167-196 | of the lines of a properties file the last that has to do with a path decides it |
| Config.ReadSource | config.go:62-76 | a file counts as readable exactly when it is absent and optional or parses; an absent optional file is skipped |
| Config.LoadedCanonical | config.go:275-278 | every key of every section of the loaded map that is reached by string keys through sections is canonical |
| Unreached.CanonEverywhereIff | config.go:291-313 | every string key of every map is canonical if and only if those reached through sections are and no leaf found at any path, list or mapping, holds a map with one that is not |
| Unreached.DistinctEverywhereIff | config.go:291-313 | no map anywhere holds two spellings of one key if and only if no section reached through sections does and no leaf found at any path holds a map that does |
| Unreached.AcceptedDocument | config.go:294-313 | an accepted document comes out canonical in every map if and only if no leaf in it, list or mapping, holds a map with a key that is not, and free of double spellings if and only if no leaf in it holds a map with one |
| Unreached.LeafEscapes | config.go:304-311 | a document of one leaf is accepted whatever maps are in the leaf, and they come out as they went in |
| Unreached.ListsEscape | config.go:304-311 | any two spellings of one key in a map inside a list are accepted and both stay |
| Unreached.MappingsEscape | config.go:304-311 | so are any two in a map under a key that is no string, with no list anywhere |
| Unreached.ReadTimeoutEscapes | config.go:304-311 | one such document of each kind, written out |
| Unreached.StackLeaves | config.go:60-77 | what is found in a fold of layers is exactly the leaves no later layer claims, each as a whole |
| Unreached.LoadedEverywhereIff | config.go:50-78 | the loaded configuration is canonical in every map, and free of double spellings in every map, if and only if the leaves that survive from the layers are |
| Text.Split | config.go:167-195 | the parts joined by the separator give the string back, and no part has the separator in it |
| Text.SplitFirst | config.go:194-194 | what stands before the first separator is the first part, and the rest is split in its turn |
| Text.TrimOf | config.go:169-183 | space around a string, by code point, is taken off, and what begins and ends with none is left as it is |
| Text.TrimParts | config.go:169-183 | every string is what is left of it with such space around it |
| Text.SortedUnique | config.go:216-217 | a bag of strings has one sorted form |
| Text.BeforeIff | config.go:216-217 | in the sorting order a string comes before those it begins, and otherwise the first character that differs decides |
| KafkaBatch.HandlePartition | kafka/kafka.go:355-370 | calls the Handler on the first records in order, each once, and on nothing after the first failure; returns exactly the records whose call succeeded; and stops early only after a failure or right after a call that found ctx cancelled |
| KafkaBatch.ReportIsSuccesses | kafka/kafka.go:349-370 | the run a partition reports is exactly its successful calls and the leading run of successes, cut only by a cancelled ctx |
| KafkaBatch.RunsAgree | kafka/kafka.go:355-370 | with no cancellation the goroutine's steps and the loop of handlePartition make the same calls and report the same run |
| KafkaBatch.StepInv | kafka/kafka.go:316-347 | every step of every goroutine keeps the invariant: each goroutine has called its first records in order and stands where those calls leave it, the mutex has one holder, the shared slice is the reported runs of the goroutines that wrote, each once, and the WaitGroup counts the live ones |
| KafkaBatch.RunInv | kafka/kafka.go:316-347 | so every schedule does, from the first step on |
| KafkaBatch.CalledInOrder | kafka/kafka.go:349-370 | at every moment of every schedule the Handler has been called on the first records of a partition in order, each once, and on nothing after the first failure |
| KafkaBatch.CommitsLeadingRuns | kafka/kafka.go:316-370 | under every schedule the records handed to commit are, partition by partition and in offset order, the leading run of successes, cut earlier only if ctx was cancelled; they are exactly the records whose Handler call succeeded, and nothing else |
| KafkaBatch.CancelStopsCalls | kafka/kafka.go:355-370 | once ctx is cancelled, whatever else is scheduled, the Handler is called on at most one more record of each partition, and only where a goroutine was about to call it or had not begun |
| KafkaBatch.ScheduleFree | kafka/kafka.go:316-347 | with no cancellation any two schedules commit the same records, in the same order within each partition |
| KafkaBatch.StepsRunOut | kafka/kafka.go:322-337 | every step brings a measure down |
| KafkaBatch.SchedulesAreBounded | kafka/kafka.go:322-337 | no schedule of a batch is longer than its first measure |
| KafkaBatch.NeverStuck | kafka/kafka.go:322-338 | until the batch is over some step other than a cancellation is enabled, so the wait always comes down to the commit |
| KafkaLoop.FirstRefusal | kafka/kafka.go:293-307 | the first broker error that is neither a cancellation nor retriable, and nothing exactly when there is none |
| KafkaLoop.Refusal | kafka/kafka.go:293-307 | the loop over a fetch's errors computes that |
| KafkaLoop.RunInv | kafka/kafka.go:262-433 | every schedule of loop, Drain and Stop keeps the order of the two flags, of the cancellations and of the one death |
| KafkaLoop.CancelsLate | kafka/kafka.go:414-432 | the handlers' ctx is cancelled only after the loop has returned or the stop budget is spent, and an interrupted batch means Stop did not return nil |
| KafkaLoop.CleanStopMeansCommitted | kafka/kafka.go:414-433 | Stop returns nil only once the loop has returned with every batch it began handed to commit |
| KafkaLoop.AtMostOneLateBatch | kafka/kafka.go:262-285 | after pollCtx is cancelled at most one batch more begins, and only if the loop was already past its check |
| KafkaLoop.DeathNeverBlocks | kafka/kafka.go:279-283 | the death channel is sent on at most once, the send finds room, by then Check reports the error, and that is the broker's refusal in the last fetch, so nothing else is a death |
| KafkaLoop.RefusedFetchDies | kafka/kafka.go:278-282 | a fetch with an error the broker will not take back is always a death: whatever else is scheduled no batch is begun any more, at most three steps of the loop follow, one of them is enabled until it has returned, and then Check and the death channel have the first such error |
| KafkaLoop.PollMayBring | kafka/kafka.go:264-278 | before a shutdown a poll may come back with any errors, and they are looked at |
| KafkaLoop.DrainEndsTheLoop | kafka/kafka.go:401-407 | once both flags are set the loop takes at most eight more steps and always has one to take until it has returned |
| KafkaLoop.GetsOff | kafka/kafka.go:265-277 | about to read closing at the top, a closed client or a cancelled pollCtx, the loop takes one more step and with it has returned, begins no batch and sends no death, whatever else is scheduled |
| KafkaLoop.StopNeverStuck | kafka/kafka.go:414-433 | a Stop that has begun always has a step to take once the loop has returned or the budget is spent, and each brings what is left of it down |
| KafkaLoop.GivesUp | kafka/kafka.go:420-432 | a Stop whose budget runs out while it waits cancels the handlers' ctx, closes the client and does not return nil |
| KafkaConsumer.EveryBatchCommitsItsRuns | kafka/kafka.go:262-370 | under every interleaving of loop, goroutines, Drain and Stop, every batch the loop has been through called its Handler in order and never after a failure and handed to commit exactly the leading runs that succeeded, and only a Stop that gave up cut one short |
| KafkaConsumer.CancelStopsHandlers | kafka/kafka.go:363-367 | once Stop has cancelled ctx, whatever else is scheduled, the Handler is called on at most one more record of each partition of the batch in hand, and on at most one of each of any later batch |
| KafkaConsumer.CleanStopCommitsEverything | kafka/kafka.go:409-433 | a nil Stop means every batch begun is over and the whole of every partition's leading run was handed to commit |
| KafkaConsumer.AtLeastOnceEndToEnd | kafka/kafka.go:90-98 | over any run, everything below the partition's committed offset has had a Handler call that succeeded after every batch if and only if every batch that committed something resumed no later than the first record without one |
| KafkaShutdown.FlagsEndTheConsumer | kafka/kafka.go:262-285 | once both flags are set at most one more batch begins, the loop and its goroutines take at most eight moves beyond what their batches have left, and until the loop has returned one of them can move |
| KafkaShutdown.NeverStuck | kafka/kafka.go:262-347 | until the loop has returned, it or a goroutine of its batch always has a move |
| KafkaDelivery.CommitReaches | kafka/kafka.go:342-346 | a commit puts exactly the records up to the last one reported below the committed offset |
| KafkaDelivery.HandledIsReported | kafka/kafka.go:342-370 | position by position, what a poll's Handler calls handled is what the poll reports |
| KafkaDelivery.PollKeepsCoverage | kafka/kafka.go:342-370 | one poll keeps the committed offset covered by successful Handler calls if and only if it commits nothing or started no later than the first unhandled record |
| KafkaDelivery.SafeStartIff | kafka/kafka.go:90-92 | before the poll: one that brings something keeps coverage for every outcome if and only if it starts no later than the first unhandled record |
| KafkaDelivery.RedeliveryMeansAtLeastOnce | kafka/kafka.go:90-92 | for a client that redelivers, everything below the committed offset has had a Handler call that succeeded, whatever fails, panics or is cancelled |
| KafkaDelivery.AtLeastOnceIff | kafka/kafka.go:90-92 | over any number of polls coverage holds throughout if and only if every committing poll resumed no later than the first unhandled record |
| KafkaDelivery.CarryingOnLosesARecord | kafka/kafka.go:90-92 | two polls of a client that carries on after a failure leave an unhandled record below the committed offset |
| KafkaDelivery.BatchGivesPoll | kafka/kafka.go:316-370 | the calls a goroutine of a finished batch made, with what the batch committed of its partition, are one poll |
| KafkaRedelivery.AnyBatches | kafka/kafka.go:262-285 | for any batches in any order, wherever they start, the consumer has a run through exactly them |
| KafkaRedelivery.CarryingOnHappens | kafka/kafka.go:90-92 | a run of the whole consumer in which a record whose handler failed is passed over by a later commit |
| App.TierOrderIsStable | app.go:99-102 | the order is by Tier, keeps the order of addition within each Tier, and loses nothing |
| App.TierOrderUnique | app.go:99-102 | only one order is by Tier and keeps additions in order |
| App.Application.RejectDuplicateNames | app.go:130-139 | refuses exactly a list with a repeated name, naming the first Component that repeats one |
| App.Application.Add | app.go:85-85 | appends in the order given |
| App.Application.Start | app.go:95-125 | leaves exactly the start trace, the stored readiness flag off at every event of it but the last of a start that worked: the order's starts, then readiness; or on a failure the rollback in reverse, with the start error joined with every stop error; or nothing at all for a repeated name |
| App.Application.Stop | app.go:169-173 | the first Stop turns readiness off, drains in start order, waits and stops in reverse; any further one stops nothing; every stop error is joined; Phases.PhasesInOrder says the order of the phases by itself |
| App.Application.BeginShutdown | app.go:177-187 | readiness is off and the stop channel is closed at most once however often it is called |
| App.Application.DrainStarted | app.go:192-205 | drains the started Drainers, first started first, then waits |
| App.Application.StopStarted | app.go:208-220 | stops the started Components, last started first, joining every error, and forgets them |
| App.Application.Run | app.go:223-244 | a failed Start is returned as it is; otherwise exactly one Stop follows and the death is joined with its errors |
| AppRun.Run | app.go:223-244 | over any schedule of the watchers, the death that is joined is that of a Component that had started, as it died it and as its watcher took it, and a signal joins nothing |
| App.Application.Checks | app.go:250-258 | the map holds exactly the names of the Components that offer a Check, each with such a Component |
| App.CheckNamesAre | app.go:250-258 | a name is a key exactly if some Component of that name offers a Check |
| App.TraceByKind | app.go:95-220 | over one Start and any number of Stops, what starts is a prefix of the Tier order, what is stopped is exactly that in reverse, and Drainers are drained only if everything had started |
| App.StoppedExactlyOnce | app.go:169-220 | however many Stops follow, a Component that started is stopped exactly once and one whose Start failed not at all |
| Phases.PhasesInOrder | app.go:164-220 | in whatever has happened to an App: if every Component could start, readiness goes off after the last start, then come all the drains, then the delay, then all the stops, each of a Component that had started; if one could not, readiness goes off after it failed and before anything is stopped, and nothing is drained; with a repeated name nothing starts or stops |
| Phases.AllStartIff | app.go:95-125 | everything starts exactly if no name is repeated and no Start fails |
| Phases.StopErrorsSplit | app.go:208-220 | of two lists the errors of the second come before those of the first, as it is stopped first |
| Phases.OfOne | app.go:208-220 | a Stop that fails gives one error, with the Component's name and the cause |
| Phases.DrainersSplit | app.go:192-199 | the Drainers of two lists are those of the first and then those of the second |
| Phases.ReverseAt | app.go:212-217 | reversing puts each Component at the mirrored position |
| Phases.StartErrorsSay | app.go:109-118 | a failed Start names the Component that failed, and why, before what the Stops of the started ones said |
| Watchers.RunInv | app.go:143-187 | every schedule of watchers, deaths, Run and shutdown keeps the two channels as they are declared, a buffer of one and a close only once |
| Watchers.OneDeathNoneLost | app.go:143-187 | under every interleaving the death channel never holds more than one death, the stop channel is closed at most once, an observed death is on its way or in the channel until Run has one, a watcher never waits to send, what Run gets is a death some started Component died, and until shutdown begins a Component with a death channel that has died is observed or its watcher can observe it |
| Watchers.DeathReachesRun | app.go:143-162 | while Run waits and no death has come, the death of any started Component with a death channel reaches Run with its cause by steps that are all enabled |
| Watchers.ClosedByShutdown | app.go:177-187 | the stop channel is closed exactly once a shutdown has begun, by the first that begins |
| Watchers.WatchersRunOut | app.go:148-161 | every step of a watcher brings the measure down and no other step raises it but the start of another Component, which there is none of once shutdown has begun |
| Watchers.AfterShutdownTheyGo | app.go:177-187 | once the stop channel is closed every watcher that is left has a step to take |
| Readiness.Actuator.Start | actuator/actuator.go:338-342 | pulls every Check the App offers: exactly the names of the Components that offer one |
| Readiness.Actuator.Drain | actuator/actuator.go:334-334 | sets the draining flag |
| Readiness.Actuator.Readyz | actuator/actuator.go:216-241 | 200 exactly when the App is ready, the Actuator is not draining and every Check passes; the details show every Check, or none unless asked for |
| Readiness.HealthCheck | grpc/health/health.go:52-68 | an unknown service is not found; otherwise SERVING exactly when the App is ready and every Check passes |
| Readiness.ReadyExactlyThen | app.go:122-187 | in whatever has happened to an App, the stored flag is on at exactly one event: after the last Start and before anything else |
| Readiness.ReplayFlags | actuator/actuator.go:334-342 | at any moment the Actuator has pulled its Checks exactly if it has been started, and is draining exactly if it has been drained |
| Readiness.ProbesAgree | grpc/health/health.go:36-46 | at every event in the life of an App with an Actuator, if the stored flag is on then all have started and none is drained or stopped, a draining Actuator means it is off, and /readyz is 200 exactly when the health answer is SERVING, however the Checks come out |
| Recorders.WebRecorder.constructor | web/middleware.go:178-182 | a fresh recorder has seen nothing and reports 200 |
| Recorders.WebRecorder.WriteHeader | web/middleware.go:227-246 | at any nesting the wire gets what the net/http writer alone would have sent, and every recorder still agrees with it; the first code that is 101 or at least 200 is recorded, and any other call changes nothing here |
| Recorders.WebRecorder.Write | web/middleware.go:248-253 | the same for a body write, with the bytes counted |
| Recorders.WebRecorder.Flush | web/middleware.go:259-263 | the same for a flush |
| Recorders.MetricsRecorder.constructor | web/metrics/metrics.go:102-102 | a fresh recorder has seen nothing and reports 200 |
| Recorders.MetricsRecorder.WriteHeader | web/metrics/metrics.go:184-199 | at any nesting the wire gets what the net/http writer alone would have sent, and every recorder still agrees with it; the first code that is 101 or at least 200 is recorded, and any other call changes nothing here |
| Recorders.MetricsRecorder.Write | web/metrics/metrics.go:201-204 | the same for a body write |
| Recorders.MetricsRecorder.Flush | web/metrics/metrics.go:210-214 | the same for a flush |
| Middleware.Server.Use | web/web.go:132-132 | appends entries |
| Middleware.Server.Start | web/web.go:152-157 | the handler is the chain of the entries around the mux, however often Start is called |
| Middleware.ChainAppend | web/web.go:130-132 | the chain of two lists is the first around the second |
| Middleware.ChainInOrder | web/web.go:130-157 | entries run in list order, the first outermost |
| Middleware.Play | web/middleware.go:227-263 | any sequence of writer calls through any nesting leaves on the wire what the net/http writer alone would have sent |
| Statuses.WireInNumbers | web/middleware.go:227-263 | for any calls of a handler: a final status is out exactly if some call was a body write, a flush or a code that is 101 or at least 200; the first such call gives it, 200 for a write, a flush or none; the codes before it went out as informational in order; and every byte written is in the body |
| Statuses.WebInNumbers | web/middleware.go:217-263 | a recorder put on an unwritten response holds exactly that status, that body size and whether the status is settled |
| Statuses.MetricsInNumbers | web/metrics/metrics.go:178-214 | and so does the metric's copy |
| Statuses.RecordWeb | web/middleware.go:105-107 | a fresh recorder around any writer, and the handler's calls through it, end in those numbers |
| Statuses.RecordMetrics | web/metrics/metrics.go:102-104 | the same for the metric's copy |
| Middleware.Serve | web/middleware.go:38-215 | through any chain, entries that answer by themselves included, the wire, the ending, the route, the access lines, the samples and the panic log are the ones read off what answers the request |
| Middleware.RpcStatus | web/middleware.go:155-161 | the trailer's status if it is there, else the header's, and nothing exactly when that is absent or zero |
| Middleware.ServeLogging | web/middleware.go:92-135 | off the probe paths, one line with the recorder's status and bytes and the RPC code, at ERROR for a server error or a failed RPC, and only if the handler below returned |
| Statuses.LinesCounted | web/middleware.go:101-107 | for /livez, /readyz and anything under /actuator/ no line is written; for any other path each Logging the request gets to writes one when it returns |
| Statuses.LinesOfPanic | web/middleware.go:92-135 | of a recovered panic exactly the Loggings around the innermost Recovery write a line |
| Middleware.ServeMetrics | web/metrics/metrics.go:100-164 | one sample on a return or a panic, none on an abort, and the panic goes on |
| Middleware.ServeRecovery | web/middleware.go:174-215 | an abort goes through; any other panic is logged and answered with 500 unless a status has gone out |
| Statuses.ClientGets | web/middleware.go:184-212 | through any chain the client gets what the handler sent, in numbers, unless a panic is recovered before any call settled the status: then it gets 500 and the problem document |
| Statuses.HowItEnds | web/middleware.go:184-212 | through a chain without an entry that answers, an abort always comes out as an abort and a panic as one exactly if there is no Recovery |
| Statuses.WhatAnswers | web/web.go:152-157 | the first entry that answers by itself decides what is sent, and returns |
| Middleware.RecordsAgreeWithWire | web/middleware.go:92-135 | for any chain and any handler, if the request comes out as a return then every access line and every sample carries the status the client receives, and a line is at ERROR exactly for a server error or a failed RPC |
| Middleware.PanicUnrecovered | web/metrics/metrics.go:143-153 | a panic that no Recovery stops leaves no access line, and the label is the status on the wire or 500 if nothing is |
| Middleware.AbortLeavesNoTrace | web/metrics/metrics.go:132-141 | an abort goes through every layer with nothing logged, nothing counted and nothing added to the wire |
| Middleware.CountedOnce | web/metrics/metrics.go:100-164 | each metric entry a request gets to counts it once unless it is aborted, and a recovered panic is logged once |
| Middleware.CountedAboveAnswer | web/metrics/metrics.go:100-164 | with an entry that answers by itself, as CORS and authentication do, exactly the metrics above it count the request: all of them if and only if none stands below |
| Middleware.PlacementDoesNotShow | web/metrics/metrics.go:119-128 | inside or outside Recovery, the wire and the status label are the same |
| Middleware.RouteSeenIff | web/metrics/metrics.go:114-117 | wherever in a chain the metric, Logging or Recovery stands and is reached, what it records has the matched route if and only if no entry below it hands on a copied request or answers it |
| Middleware.DocumentedWiring | web/middleware.go:34-40 | DefaultMiddleware with the metric appended gives one sample and one access line, both with the route and the client's status |
| Jwks.ParseJWKS | security/jwks.go:301-326 | refuses exactly a document with no usable key; otherwise holds every usable key under its kid in document order and nothing else |
| Jwks.KeysUnderOne | security/jwks.go:309-320 | an entry counts, under its own kid only, exactly if its use is empty or sig and its key can be read |
| Jwks.KeysUnderSplit | security/jwks.go:308-320 | the keys of two documents under a kid are those of the first and then those of the second |
| Jwks.KeySet.FromUrl | security/jwks.go:102-108 | nothing is loaded until the first token |
| Jwks.KeySet.FromFile | security/jwks.go:125-129 | once the read has worked, the first load is that of the construction |
| Jwks.NewFileKeySet | security/jwks.go:113-130 | there is no key set exactly when the file cannot be read at once |
| Jwks.KeySet.FromPEM | security/jwks.go:138-138 | one key, no kid, never reloaded |
| Jwks.NewPEMKeySet | security/jwks.go:133-139 | there is no key set exactly when the key cannot be read |
| Jwks.KeySet.CandidatesFor | security/jwks.go:178-192 | the keys under the kid, or for no kid every held key as a multiset, whatever order the map yields |
| Jwks.KeySet.Refresh | security/jwks.go:196-216 | reads again exactly when the source can be and the floor has passed, stamping the read whether or not it works; a failed read keeps the keys and a good one replaces them |
| Jwks.KeySet.Keyfunc | security/jwks.go:144-170 | a held kid never costs a load; otherwise at most one, never inside the floor; and each answer is given in exactly its case |
| Jwks.BagTakesAny | security/jwks.go:180-183 | the multiset of all keys does not depend on the order the kids are taken in |
| Jwks.RateBound | security/jwks.go:202-207 | n loads spaced by the floor and stamped in a window of length w satisfy (n - 1) * minRefetch <= w |
| Jwks.CountInIs | security/jwks.go:202-207 | each load stamped in the window is counted once |
| Jwks.AnyCalls | security/jwks.go:144-216 | any sequence of calls on any key set keeps every window to the loads the floor allows, and makes at most one load a call |
| Jwks.HeldIsLastGood | security/jwks.go:205-215 | what is held is what the constructor or the last good load gave, so a withdrawn kid is gone |
| Rabbit.Consumer.Handle | rabbit/rabbit.go:291-323 | keeps the ledger: one more attempt for one more delivery, an Ack exactly when its Handler returned nil without panicking, otherwise a Nack that requeues unless errors are discarded, and no earlier attempt touched |
| Rabbit.Consumer.Range | rabbit/rabbit.go:223-225 | every delivery of a stream is settled by one attempt, in order |
| Rabbit.SettledOneWay | rabbit/rabbit.go:291-305 | what was taken and what the Handler made of it determine every attempt, so the loop and the machine make the same |
| Rabbit.RunInv | rabbit/rabbit.go:220-364 | every schedule keeps the ledger of deliveries and settlements, the order of the shutdown, the one death, and which channel is held for which stream |
| Rabbit.SettledOnceInOrder | rabbit/rabbit.go:220-305 | under every interleaving each delivery taken is settled by exactly one attempt, in order and one at a time, with an Ack exactly when the Handler returned nil without panicking; only the one in hand may still be unsettled, and what was taken with what waits is everything that arrived, in order |
| Rabbit.DeathOnlyOnRefusal | rabbit/rabbit.go:230-288 | a death is reported at most once, without waiting, only for a permanent refusal and after Check shows it; a loop that returns without one was told to close |
| Rabbit.RefusalIsDeath | rabbit/rabbit.go:230-288 | a dial refused with 403, 404 or 530 always ends the loop with a death: whatever else is scheduled it dials no more and opens no stream, at most two of its steps follow, one is enabled until it has returned, and then Check and the death channel have that error |
| Rabbit.OtherFailureRetries | rabbit/rabbit.go:262-271 | any other failure of a dial, by the network or with any other code, is no death: the loop pauses and tries again |
| RabbitStop.DialMayComeTo | rabbit/rabbit.go:262-271 | a dial may work or fail in any way, and one that works leaves the loop on a new open stream |
| Rabbit.CleanStopMeansSettled | rabbit/rabbit.go:350-364 | the Handler's ctx is cancelled only once the loop has returned or the budget is spent, and a nil Stop means everything taken was settled |
| RabbitStop.DeliveryIsSettled | rabbit/rabbit.go:220-305 | a delivery that finds the loop waiting is taken, handled and settled by enabled steps, with an Ack for a nil return and otherwise a Nack, whatever the Handler makes of it |
| RabbitStop.ChannelHeld | rabbit/rabbit.go:367-379 | the channel held is always that of the last stream or none: none from the moment the broker was closed until a dial has worked |
| RabbitStop.StopEndsTheStream | rabbit/rabbit.go:325-354 | a Stop that reads the channel with no dial under way leaves no stream open once it has cancelled it, and none is opened after |
| RabbitStop.StopCloses | rabbit/rabbit.go:361-379 | when Stop has closed the broker no channel is held and no stream is open |
| RabbitStop.StopNeverStuck | rabbit/rabbit.go:350-364 | a Stop that has begun always has a step to take once the loop has returned or the budget is spent, and each brings what is left of it down |
| RabbitStop.WindsUp | rabbit/rabbit.go:361-363 | however the wait ended, Stop cancels ctx, closes the broker and returns what the wait ended with |
| RabbitStop.GivesUp | rabbit/rabbit.go:355-363 | a Stop whose budget runs out while it waits does not return nil |
| Rabbit.AtMostOneLateStream | rabbit/rabbit.go:251-272 | once closing is set at most one more stream is opened, by a dial already under way |
| Rabbit.LooseOnlyIfMissed | rabbit/rabbit.go:330-343 | after a Drain the loop is on an open stream or dialing only if a dial was under way when Drain read which channel to cancel |
| Rabbit.MissedDialHappens | rabbit/rabbit.go:330-343 | a run in which Drain has finished and the broker may go on sending, on a stream opened after closing was set |
| Rabbit.DrainMissesIff | rabbit/rabbit.go:330-343 | when Drain has set closing and is about to read the channel, some continuation without Stop leaves the loop on an open stream or dialing after it if and only if a dial is under way |
| Rabbit.LoopEndsIff | rabbit/rabbit.go:220-272 | once closing is set, and as things stand with Drain and Stop, the steps the loop has left are bounded if and only if it is neither on an open stream nor dialing |
| RabbitStop.ClosingGetsOff | rabbit/rabbit.go:226-266 | once closing is set a loop at the end of its stream returns with its next step and one that pauses with its next two, without a dial, a stream or a death, whatever else is scheduled; a cancelled ctx ends the pause at once |
| Rabbit.TightNeverStuck | rabbit/rabbit.go:220-272 | and then it always has a step until it has returned |

## Left out

- Keys.Relax: lowers the ASCII letters only, because Unicode case folding is a library table.
- Text.TrimOf: speaks of the white space of Latin-1 only; Unicode's other spaces are a library table.
- Text.Split: for a separator that is not empty, as in every call in config.go.
- Keys.CanonShape: speaks of ASCII capitals for the same reason.
- Keys.CaseBlindIff: so does this.
- KafkaLoop.CleanStopMeansCommitted: treats a batch as one step; KafkaConsumer.CleanStopCommitsEverything opens it up.
- KafkaDelivery.RedeliveryMeansAtLeastOnce: takes redelivery as a hypothesis, because nothing in the consumer provides it; KafkaDelivery.AtLeastOnceIff says that it is needed.
- Jwks.RateBound: speaks of the time a load is stamped, not of when its request leaves.
- Rabbit.AtMostOneLateStream: says nothing about what happens after Stop has returned, because a dial in flight ignores ctx and may finish then.
- Readiness.ProbesAgree: compares the two probes at one moment; a probe that reads its two flags at different moments is not modelled.
- Middleware.ServeLogging: leaves out the attributes of a line that are read straight off the request, and its duration.
- App.Application.Start: a second Start on the same App, an Add after Start and Stops at the same time are outside the type's own terms.
- The typing of one value (config.go:236-258), the YAML parser and the decode into a struct: inputs, or past the point where the model ends.
- What the YAML parser makes of a mapping's keys: a document is an input already told apart into maps with string keys and others.
- Which files make up the layers and in what order, and profileOf, which depends on the order of the environment: the file layers are an input list.
- Which of several spellings canonMap names in its error: map order decides it.
- Sockets, listeners, TLS, files, signals, the wall clock and the timeouts: steps, outcomes or integer times.
- Rabbit.LoopEndsIff: takes a cancel on an open channel to work; one that fails on it is logged and not modelled.
- The Kafka and AMQP clients: where a poll starts, what it fetched, whether a commit or a dial worked are inputs; a commit moves a partition to just past the last record handed to it.
- The fields of the message a Handler is given, headers included: copying.
- A Stop of a consumer that was never started, which returns at once.
- Hijacked connections, writers that cannot flush, handlers that write through Unwrap, and status codes outside 100 to 999: the recorders do not agree with the wire there.
- The request ID's value, CORS, body limits and the problem document's text: one-branch facts.
- The Actuator's other routes, its own listener and a restart of it.
- Reading PEM files, building RSA and elliptic-curve keys, JWT parsing and signatures: library work.
- The Starters, the Scaffold, the examples, generated code, database helpers and the other Checks: wiring.
