# Verification of the Tidefly control plane

This project models the parts of the control plane that decide what happens to containers, and to the
messages, requests, certificates and logs around them, and proves what they keep. It is plain Dafny
(4.11); `dafny verify dfyconfig.toml` checks all of it. Each file is one module.

The control loop. `ContainerRuntime` is the container table: unique names, unique ids, labels and
states, changed by create, stop and delete. Creating removes a container of the same name first.
Everything the daemon, the clock and the health checks answer is an input of the call that asks.
`Reconciler` is the loop with its actions; `Rollout`, `Rolling` and `BlueGreen` are the two update
strategies, with every state they pass through as a trace; `Naming` holds the names they make up. `Ticks` tells
what one tick does in terms of the table before and after.
`Convergence` proves when repeated ticks reach the desired number of replicas, and that they stay
there. `FreshIds` keeps container ids unique, `Isolation` proves that a tick acts on its own service
only, `Rounds` that a round over all services is the ticks of each of them alone, in any order, and
`Fleet` puts these together: which services converge, round after round, next to others that fail.

Around it. `Autoscaler` adds and removes replicas by load, within cooldowns. `StopTracker` tells wanted
deaths from those to heal. `AgentProtocol` and `LogChannels` are the command protocol, the log
streams and the registry of worker connections, as transition systems whose steps are the regions under
a lock and the single channel operations. `RateLimiter` and `Dedup` are the two time-window structures.
`Interpolation`, `Dockerfile` and `Frames` are the text and byte transformations. `Certificates` is the
table of issued certificates with each call as a whole, `Renewals` the renewal job step by step, next to
other calls. `LogMonitor` is the bookkeeping of log watches.

Code that changes things step by step is modelled by classes and methods with loops, each proved
against a specification function or relation; the lemmas are about those, over whole runs.

Names: `Up`, `Halted`, `Failed`, `Rebooting` and `Deploying` are the service states running, stopped,
failed, restarting and deploying. A state that the runtime reports is a `Status`.

## Where the code does less than one might expect

- Blue-green removes the old slot before it records the new one, so the recorded slot is down for a
  moment in every ordinary deploy (`BlueGreen.RecordedSlotServesIff`).
- Self-healing does nothing, for ever, when the service has only a paused or created container, or, with
  Podman, a restarting one; with Docker that is reported as stopped (`Convergence.PausedReplicaBlocksHealing`).
  Scaling up replaces a container that already has the next number (`Convergence.ConvergesIff` has the
  exact condition).
- With ten replicas both scale-downs take the ninth, not the tenth (`Autoscaler.PicksLastIff`,
  `Naming.NineSortsAfterTen`), and the autoscaler's new replicas carry the manifest's name as their label,
  not the service's (`Autoscaler.NewReplicaCountsIff`).
- The rate limiter admits up to twice its rate, less one, in a window (`RateLimiter.BoundIsMet`).
- Interpolation depends on the iteration order of a map: some template shows the order exactly when a value overlaps
  the placeholder of another variable, one that does not just stand for its own placeholder
  (`Interpolation.OrderNeverShowsIff`, for keys without braces).
- A worker that is revoked while a renewal is under way can be left with an active certificate, new or no longer
  revoked: the renewal queries once, issues one by one, and saves new rows as a whole from memory
  (`internal/platform/ca/ca.go:112-139`), in a goroutine of its own (`internal/platform/ca/renew.go:20-37`), while the
  revocation comes from a request (`internal/agent/service.go:99-103`). `Renewals.ActiveAfterRevocationIff` has the
  exact condition.
- `FROM --platform=... image` has its flag qualified instead of its image, the name of an earlier build stage is
  qualified, `FROM` followed by a tab is passed over (`Dockerfile.RightIff`), and a rewritten line loses a
  carriage return at its end (`Dockerfile.CarriageReturnKeptIff`).
- Two replies to one command can stop a worker's receiving loop for good (`AgentProtocol.WedgesIff`),
  and a log line that meets a stream just being closed is sent on a closed channel
  (`LogChannels.SendMeetsClosedIff`).
- A stop event that follows a wanted death explains the next death, too (`StopTracker.LeftOverStop`).
- A scale-down need not be preceded by three quiet minutes (`Autoscaler.QuietBeforeDownIff`).
- A worker that reconnects early can lose its new connection (`LogChannels.StaysFindableIff`).

## Model

| member | source | states |
|---|---|---|
| `Convergence.ConvergesIff` | `internal/reconciler/reconciler.go:152-260` | After as many ticks as the distance measure, or more, with calls that succeed and no image drift, the running count is the number of replicas the manifest asks for, or one if it asks for none, if and only if nothing stood in the way at the start: no container that self-healing leaves alone while none runs, and no replica name in the way of scaling up |
| `Convergence.TickKeepsOutlook` | `internal/reconciler/reconciler.go:152-260` | One tick neither makes nor removes an obstacle, and while there is none the distance to the goal strictly decreases |
| `Convergence.TickNeverOvershoots` | `internal/reconciler/reconciler.go:152-260` | A tick moves the running count towards the number the manifest asks for, or one, or leaves it, and never past it |
| `Convergence.Settled` | `internal/reconciler/reconciler.go:173-197` | With as many running as the manifest asks for, or one, a tick changes no container |
| `Convergence.StaysSettled` | `internal/reconciler/reconciler.go:173-197` | From then on any number of ticks leaves the table as it is |
| `Convergence.TickKeepsWf` | `internal/reconciler/reconciler.go:199-260` | Healing, scaling up and scaling down keep container ids unique |
| `Convergence.HealFresh` | `internal/reconciler/reconciler.go:199-228` | Healing a service of which nothing runs and everything may be replaced leaves exactly one container, running, under the manifest's name |
| `Convergence.HealStuck` | `internal/reconciler/reconciler.go:202-209` | Healing that finds a container that needs no restart changes nothing |
| `Convergence.PausedReplicaBlocksHealing` | `internal/reconciler/reconciler.go:202-209` | A service whose only container is paused cannot converge, whatever its manifest says |
| `Convergence.TickScalesUp` | `internal/reconciler/reconciler.go:230-244` | Scaling up puts one running container under the name numbered one above the present number of containers, replacing what bears that name, and touches nothing else |
| `Convergence.TickScalesDown` | `internal/reconciler/reconciler.go:246-260` | Scaling down takes away exactly one container of the service and leaves the rest of the table |
| `Convergence.SweepRemoves` | `internal/reconciler/reconciler.go:308-319` | Removing listed containers one by one removes exactly those |
| `Convergence.TickOnceIsTick` | `internal/reconciler/reconciler.go:115-150` | For a service without image drift the tick used in the convergence proofs is the tick of the control loop |
| `Ticks.TickHeals` | `internal/reconciler/reconciler.go:199-228` | With no replica running a tick looks again: if a container of the service is there that is not exited, dead or stopped it only records the service as up; otherwise it removes the service's containers, by label or name, creates one under the manifest's name, and records whether that could be started |
| `Ticks.TickAdds` | `internal/reconciler/reconciler.go:230-244` | With fewer running than the manifest asks for a tick creates one more, numbered one above the number of containers, and touches nothing else |
| `Ticks.TickRemoves` | `internal/reconciler/reconciler.go:246-260` | With more running a tick removes the container of the service whose name comes last, or at least stops it, and touches nothing else |
| `Ticks.TickRests` | `internal/reconciler/reconciler.go:188-196` | With as many running a tick does nothing, but for recording as up a service that has long been recorded as being deployed |
| `Ticks.TickUpdates` | `internal/reconciler/reconciler.go:262-288` | An outdated service that runs is updated by its strategy; a success ends with the service up and no longer outdated, a failure leaves it failed and outdated; the active slot changes exactly with a successful blue-green deploy |
| `Rounds.RoundActsAlone` | `internal/reconciler/reconciler.go:85-113` | A round over many services, with the snapshot taken once, does to each one exactly what a tick of that service alone on the table at the start does, given a true listing of that table: same containers, row and route. Ids need only be unique at the start and unused when handed out, listings true when taken |
| `Rounds.RoundActsOnOwn` | `internal/reconciler/reconciler.go:85-113` | A round passes over services that are halted, being deployed or on a remote worker: they keep their row, their route and every container of their label. For every other service it leaves what a tick leaves on a table with its own containers only |
| `Rounds.OrderIrrelevant` | `internal/reconciler/reconciler.go:85-113` | Any two orders of the services, each with listings true at their own turn, leave the same table, the same routes, and for each service the same row, if the daemon lists each service's own containers in the same order in both |
| `Rounds.RoundSpares` | `internal/reconciler/reconciler.go:85-113` | A round leaves every container and route alone whose label is not that of a ticked service, and keeps ids unique |
| `Rounds.ReadyAt` | `internal/reconciler/reconciler.go:85-113` | At its turn each service still finds what the snapshot showed of it |
| `Rounds.ListedAlike` | `internal/reconciler/reconciler.go:85-113` | Every table with the same containers of a service has a true listing that shows them in the same order |
| `Isolation.TickIsolated` | `internal/reconciler/reconciler.go:115-150` | If ids are unique, listings true, and no foreign container bears a name the service can generate, a tick leaves every foreign container untouched and depends on nothing but the service's own containers and the part of its listing that shows them; what it leaves bears the service's label and names it had or can generate |
| `Isolation.TickReadsOnly` | `internal/reconciler/reconciler.go:115-150` | A tick depends on the listing its action takes only through the labelled containers, those healing removes, or those of the old slot |
| `Isolation.ReadsOwn` | `internal/reconciler/reconciler.go:308-319` | What a tick takes from a true listing are the service's own containers: none has a foreign id |
| `Isolation.TickFrame` | `internal/reconciler/reconciler.go:115-150` | Frame rule: adding a foreign part to the table before a tick is adding it after |
| `Isolation.RollFrame` | `internal/reconciler/rolling.go:18-95` | A rolling update carries the foreign part of the table along unchanged |
| `Isolation.DeployFrame` | `internal/reconciler/bluegreen.go:19-83` | A blue-green deploy carries the foreign part of the table along unchanged |
| `FreshIds.TickKeepsWf` | `internal/reconciler/reconciler.go:115-150` | Every tick, whatever goes wrong in it, keeps ids unique when those handed out are unused at the time |
| `Fleet.EachConvergesIff` | `internal/reconciler/reconciler.go:67-113` | Round after round over all services, one snapshot each: a service whose calls succeed has as many replicas running as its manifest asks for, or one, within its distance in rounds if and only if nothing stood in its way, whatever goes wrong with the others |
| `Fleet.AllConverge` | `internal/reconciler/reconciler.go:67-113` | The same for all such services at once |
| `Fleet.RoundsAreTicks` | `internal/reconciler/reconciler.go:67-113` | Rounds over all services are, for each of them, a run of its own ticks |
| `Fleet.RoundKeepsReady` | `internal/reconciler/reconciler.go:85-113` | A round leaves names apart, ids unique and rows in order, so that the next one can follow |
| `Reconciler.Controller.ReconcileAll` | `internal/reconciler/reconciler.go:85-113` | The loop over the services, with one listing, leaves the table, the rows and the routes that single ticks over the same snapshot give one after another, and each action is shown the table as it is at its turn |
| `Reconciler.Controller.ReconcileOne` | `internal/reconciler/reconciler.go:115-150` | One tick computes the action from the snapshot and leaves the state of the specified tick, with listings that are true at the time they are taken |
| `Reconciler.Controller.Heal` | `internal/reconciler/reconciler.go:199-228` | Healing leaves alone a service with a container that needs no restart, and otherwise removes all labelled or equally named containers and creates one; the new status tells whether that worked |
| `Reconciler.Controller.RemoveContainers` | `internal/reconciler/reconciler.go:308-319` | Stops and deletes, in listing order, what bears the label or the name of the service |
| `Reconciler.Controller.ScaleDown` | `internal/reconciler/reconciler.go:246-260` | Stops and deletes the listed container with the largest name |
| `Reconciler.Controller.UpdateService` | `internal/reconciler/reconciler.go:262-288` | Runs the strategy and records running with the new digest, or failed |
| `Reconciler.Controller.IndexByService` | `internal/reconciler/reconciler.go:332-340` | Groups a listing by label, in listing order; unlabelled containers belong to no service |
| `Reconciler.Controller.CountRunningContainers` | `internal/reconciler/reconciler.go:342-350` | Counts the running containers of a listing |
| `Reconciler.LargestIsLargest` | `internal/reconciler/reconciler.go:246-260` | The container scale-down picks is listed, and no listed name is larger in string order |
| `ContainerRuntime.SelectLabelled` | `internal/reconciler/rolling.go:24-29` | Selects the containers that carry the service's label, in listing order |
| `ContainerRuntime.CountsAgree` | `internal/reconciler/reconciler.go:332-350` | Counting over the service's part of a listing counts the service's containers, and its running ones |
| `ContainerRuntime.Runtime.CreateContainer` | `internal/infra/runtime/docker/containers.go:133-232` | Creating removes a container of the same name first, and can fail at the pull, at the creation, or at the start with the container left behind |
| `ContainerRuntime.CreateKeepsWf` | `internal/infra/runtime/docker/containers.go:133-232` | Ids stay unique when new ones are unused |
| `ContainerRuntime.ListOf` | `internal/infra/runtime/docker/containers.go:19-75` | A listing shows each container of the table once |
| `Naming.ReplicaNameInjective` | `internal/reconciler/reconciler.go:230-244` | Replica names of different numbers differ |
| `Naming.RollNameInjective` | `internal/reconciler/rolling.go:48-48` | Names generated during a rolling update tell the replicas apart whatever the clock showed |
| `Naming.SlotsDiffer` | `internal/reconciler/bluegreen.go:19-27` | The new slot's label and container name differ from the old one's |
| `Naming.SingleDigitOrder` | `internal/reconciler/reconciler.go:246-260` | Up to nine the string order of replica names is the numeric order |
| `Naming.NineSortsAfterTen` | `internal/reconciler/reconciler.go:246-260` | The ninth replica's name sorts after the tenth's |
| `Rolling.RollKeepsAvailability` | `internal/reconciler/rolling.go:18-95` | With fresh generated names and ids, in every state a rolling update passes through, and however creates, health checks, stops and deletes turn out, whoever holds the names topped up, at least as many replicas run as at the start |
| `Rolling.ReplacingKeepsAvailability` | `internal/reconciler/rolling.go:46-76` | The same for the replacement phase from any replica on |
| `Rolling.ReplacingAddsAtMostOne` | `internal/reconciler/rolling.go:46-76` | While replicas are replaced there is never more than one container extra, given that old replicas can be deleted |
| `Rolling.RollSucceeds` | `internal/reconciler/rolling.go:78-94` | An update in which no create and no delete of an old replica fails leaves exactly the larger of the initial number of containers and the number the manifest asks for, all of the new image; containers of others that hold a name topped up give way |
| `Rolling.RollOkIff` | `internal/reconciler/rolling.go:18-95` | An update reports success if and only if the containers can be listed and every replacement can be started and becomes healthy, or, when there is none to replace, one container can be started |
| `Rolling.AbortKeepsOld` | `internal/reconciler/rolling.go:64-69` | An update aborted at some replica leaves every old replica from there on exactly as it was |
| `Rolling.RollingUpdate` | `internal/reconciler/rolling.go:18-95` | The update as carried out passes through exactly the specified states and reports success exactly then; the listing it works from is true |
| `Rolling.ReplaceReplica` | `internal/reconciler/rolling.go:47-76` | One replacement: create, wait, and then remove the old replica, or the new one when it stays unhealthy |
| `Rolling.TopUp` | `internal/reconciler/rolling.go:78-91` | Topping up creates one replica per missing number and ignores failures |
| `Rolling.AbortedStep` | `internal/reconciler/rolling.go:60-69` | A replacement that fails leaves every container there was untouched, and at most the unwanted new one |
| `Rolling.AbortRestoresIff` | `internal/reconciler/rolling.go:58-69` | A replacement that fails leaves the table exactly as it was if and only if the new container was never made, or was started and can be deleted; a new container that cannot be deleted is at least stopped |
| `Rolling.CompletedEnd` | `internal/reconciler/rolling.go:47-76` | What a replacement that goes through leaves, exactly: the new container, running the new image under its time-stamped name, and the old one deleted, or at least stopped |
| `Rolling.ReplacingKeepsNumber` | `internal/reconciler/rolling.go:46-76` | Aborted or not, replacing leaves as many containers as it found when deletes succeed and no container is left half made |
| `Rolling.CompletedStates` | `internal/reconciler/rolling.go:60-75` | In a replacement that goes through, the old replica stays until the new one runs |
| `Rollout.WaitHealthy` | `internal/reconciler/reconciler.go:352-377` | Waiting succeeds exactly if the new container is seen running before it is seen dead and before the listings fail or end |
| `Rollout.AwaitOkIff` | `internal/reconciler/reconciler.go:352-377` | Waiting for a container that is there succeeds if and only if it is seen running, with no listing failing and no sight of it exited or dead before |
| `Rollout.AwaitEffect` | `internal/reconciler/reconciler.go:352-377` | Waiting changes nothing but the state of the container waited for, and success means that it runs |
| `Rollout.Sweep` | `internal/reconciler/bluegreen.go:69-76` | Removing containers one by one by id, with failures ignored |
| `Rollout.SweepKeeps` | `internal/reconciler/bluegreen.go:69-76` | A container whose id is not among the removed stays exactly as it is at every moment |
| `Rollout.SweepEnd` | `internal/reconciler/bluegreen.go:69-76` | What removing containers one by one leaves, exactly: those aimed at are gone, or at least stopped if they could not be deleted, and nothing else has changed |
| `BlueGreen.RunServes` | `internal/reconciler/bluegreen.go:19-83` | Over any run of succeeding and failing deploys, from unique ids on, the active slot's container runs after every deploy, and at every single step the active slot or the one about to become active does |
| `BlueGreen.DeployKeepsWf` | `internal/reconciler/bluegreen.go:19-83` | A deploy, whatever goes wrong in it, keeps container ids unique |
| `BlueGreen.FailedDeploy` | `internal/reconciler/bluegreen.go:40-65` | A failed deploy leaves the active slot and every container but the new slot's unchanged at every step |
| `BlueGreen.SuccessfulDeploy` | `internal/reconciler/bluegreen.go:50-82` | A successful deploy ends with the new slot active, running the new image and, with a domain, with the route pointing at it; the sweep never deletes the new container |
| `BlueGreen.OldSlotGone` | `internal/reconciler/bluegreen.go:67-78` | What a successful deploy leaves, exactly: the new slot's container, and of the others all but those that bear the old slot's name, or the labels of service and old slot; these are gone, or at least stopped if they could not be deleted |
| `BlueGreen.NewSlotGone` | `internal/reconciler/bluegreen.go:40-65` | What a failed deploy leaves, exactly: a new container that was started is gone, or at least stopped if it could not be deleted; nothing else has changed |
| `BlueGreen.DeploySucceedsIff` | `internal/reconciler/bluegreen.go:40-65` | A deploy succeeds if and only if the new container becomes healthy and, with a domain, the route can be switched; if only the latter fails the route is as it was, or lost |
| `BlueGreen.RecordedSlotServesIff` | `internal/reconciler/bluegreen.go:67-82` | That the slot recorded as active runs at every step is not always so: it does exactly if the new container does not become healthy, the route cannot be switched, or the sweep leaves the old slot's container alone |
| `BlueGreen.RecordedSlotDown` | `internal/reconciler/bluegreen.go:67-82` | A deploy in which nothing goes wrong and the recorded slot is down at some step |
| `BlueGreen.Deployer.DeployNew` | `internal/reconciler/bluegreen.go:19-83` | The deploy as carried out passes through exactly the specified states of containers, route and slot, and reports success exactly then |
| `BlueGreen.Deployer.StartNew` | `internal/reconciler/bluegreen.go:31-48` | Creates the new slot's container, waits for it, and removes it again when it does not become healthy |
| `BlueGreen.Deployer.SelectOld` | `internal/jobs/deploy_helpers.go:80-91` | Selects the containers of the old slot by name or by labels |
| `Interpolation.OrderDoesNotShow` | `internal/template/interpolate.go:6-11` | On a template without nested placeholders, with brace-free values, every two iteration orders of the map give the same text |
| `Interpolation.AnyOrderIsOnePass` | `internal/template/interpolate.go:6-11` | Whatever the order, replacing one variable after another is the one-pass simultaneous substitution |
| `Interpolation.PutThenOnePass` | `internal/template/interpolate.go:8-8` | Replacing one variable first and the rest at once is replacing all at once |
| `Interpolation.PutKeepsUnnested` | `internal/template/interpolate.go:8-8` | A replacement leaves no nested placeholder behind |
| `Interpolation.TidyIsUnnested` | `internal/template/resolve.go:82-87` | Templates in which each opening brace starts a placeholder or is followed by neither a key character nor an opening brace have no nested placeholders |
| `Interpolation.OrderNeverShowsIff` | `internal/template/interpolate.go:6-11` | With keys without braces and any values, all iteration orders agree on every template if and only if no value overlaps another variable's placeholder, where variables that stand for their own placeholder do not count |
| `Interpolation.OverlapsMeans` | `internal/template/interpolate.go:8-8` | A value overlaps a placeholder when one lies within the other, or a non-empty end of one is a beginning of the other |
| `Interpolation.ApartIsOnePass` | `internal/template/interpolate.go:6-11` | Without such overlaps every order is the one-pass substitution, on any template, nested or not |
| `Interpolation.OverlapShowsOrder` | `internal/template/interpolate.go:6-11` | Any value that overlaps another variable's placeholder makes some template depend on the order |
| `Interpolation.PlainOrderNeverShowsIff` | `internal/template/interpolate.go:6-11` | With values without braces the condition is that no variable's value occurs in another variable's key |
| `Interpolation.BracedValueShowsOrder` | `internal/template/interpolate.go:6-11` | The values a: {b} and b: x, which occur in no key, give the template {a} two results |
| `Interpolation.Interpolate` | `internal/template/interpolate.go:6-11` | The loop replaces every variable once, in the order the map yields them |
| `Interpolation.InterpolatedIsOnePass` | `internal/template/interpolate.go:6-11` | Every text the loop can produce is the one-pass substitution, when nothing is nested |
| `Interpolation.InterpolateMap` | `internal/template/interpolate.go:14-20` | Keys stay, each value is interpolated in some order |
| `Interpolation.InterpolateSlice` | `internal/template/interpolate.go:23-29` | Each element is interpolated in some order, in place |
| `AgentProtocol.Correlated` | `internal/agent/registry.go:43-124` | In every interleaving of sends, replies, timeouts and disconnects, a command that returns a result returns a reply handed on under its own id after it was registered; an error likewise a refusal |
| `AgentProtocol.NothingLeftBehind` | `internal/agent/registry.go:44-59` | With unique ids the pending entry is gone once a command has returned, and no reply, result or refusal, ends up with two commands |
| `AgentProtocol.OutcomeIsFinal` | `internal/agent/registry.go:61-72` | A command takes at most one reply: what it decided stays decided |
| `AgentProtocol.OutcomeIff` | `internal/agent/registry.go:53-72` | A command ends as sending failed, with a result, with a refusal, as timed out or as disconnected if and only if that is what happened to it, and as disconnected only when the connection was closed |
| `AgentProtocol.NeverBlocks` | `internal/agent/registry.go:101-124` | If each command gets at most one refusal and one other reply, the receiving loop never waits for a full channel |
| `AgentProtocol.WedgesIff` | `internal/agent/registry.go:101-124` | Given what the worker sends, some interleaving makes the receiving loop wait for a full channel, and some stops it for good, if and only if two refusals, or two other replies, come under one id |
| `AgentProtocol.WedgingRun` | `internal/agent/registry.go:43-124` | The run that does it, with unique ids |
| `AgentProtocol.DuplicatesCanWedge` | `internal/agent/registry.go:101-124` | Any message sent twice can stop the loop; sent once it cannot even make it wait |
| `AgentProtocol.WedgedForever` | `internal/agent/registry.go:101-124` | A loop that is stopped receives nothing, whatever happens |
| `AgentProtocol.StepKeepsInv` | `internal/agent/server.go:210-281` | Each step keeps every reply with the command it names |
| `AgentProtocol.WorkerConn.Register` | `internal/agent/registry.go:44-51` | Registers a future under the command id |
| `AgentProtocol.WorkerConn.Resolve` | `internal/agent/registry.go:101-124` | Looks up, under the lock, the command a reply belongs to, and drops replies to unknown ones |
| `AgentProtocol.WorkerConn.HandOn` | `internal/agent/registry.go:108-123` | Puts the reply into the result or the error channel |
| `AgentProtocol.WorkerConn.Wait` | `internal/agent/registry.go:63-72` | Decides for a result, an error, the timer or the end of the connection |
| `AgentProtocol.WorkerConn.Forget` | `internal/agent/registry.go:53-57` | Removes what is pending under the command's id |
| `LogChannels.ConsumersSeeSubsequences` | `internal/agent/registry.go:82-139` | In every run the consumer has an in-order subsequence of the lines passed on, each log channel is closed at most once, and one that can be found is open |
| `LogChannels.NothingLost` | `internal/agent/registry.go:127-139` | A stream that never holds 100 unread lines when a line comes loses nothing |
| `LogChannels.StreamsApart` | `internal/agent/registry.go:82-139` | Over any run each stream becomes what the steps about it alone make of it: lines pushed under its id while it is open, closing the id, opening another stream under it, and its consumer taking the oldest unread line |
| `LogChannels.SendMeetsClosedIff` | `internal/agent/registry.go:127-139` | Passing a line on is two steps; the send meets a closed channel exactly if the stream is closed under its id in between, and no other is opened under it first |
| `LogChannels.ClosedAtMostOnce` | `internal/agent/registry.go:157-173` | In every run of connecting, reconnecting and disconnecting each done channel is closed at most once, and a connection that can be found is not closed |
| `LogChannels.StaysFindableIff` | `internal/agent/registry.go:157-173` | Over any run of changes a connection is still its worker's, and open, if and only if no change was about that worker |
| `LogChannels.ClosedIff` | `internal/agent/registry.go:157-173` | Its done channel has been closed if and only if the first change about its worker was an unregistration, by whomever |
| `LogChannels.ReconnectLosesNew` | `internal/agent/server.go:134-135` | So a worker that reconnects before its old connection has ended loses the new one when the old one is unregistered |
| `LogChannels.WorkerLogs.StreamLogs` | `internal/agent/registry.go:82-88` | Opens a new channel under the id |
| `LogChannels.WorkerLogs.CloseLogStream` | `internal/agent/registry.go:91-98` | Closes the channel that is found under the id and forgets it |
| `LogChannels.WorkerLogs.PushLog` | `internal/agent/registry.go:127-139` | Puts the line into the channel, or drops it when 100 are unread |
| `LogChannels.Registry.Register` | `internal/agent/registry.go:157-163` | Makes a new connection the worker's |
| `LogChannels.Registry.Unregister` | `internal/agent/registry.go:166-173` | Closes and forgets whatever connection is the worker's |
| `RateLimiter.AtMost` | `internal/middleware/request.go:56-70` | In any closed interval k windows long at most (k + 1) * rate - 1 requests of an address pass, and at most the rate at a single instant |
| `RateLimiter.BoundIsMet` | `internal/middleware/request.go:56-70` | For every rate and every k up to the window there is an ordered run in which exactly so many pass |
| `RateLimiter.SweepingIsInvisible` | `internal/middleware/request.go:39-52` | Sweeping at any moments changes no answer compared with never sweeping |
| `RateLimiter.SweepLeavesRecent` | `internal/middleware/request.go:39-52` | After a sweep only addresses are left that sent a request within the last window |
| `RateLimiter.Limiter.Allow` | `internal/middleware/request.go:56-70` | Answers and updates the bucket as specified |
| `RateLimiter.Limiter.SweepExpired` | `internal/middleware/request.go:42-51` | Removes exactly the buckets that have run out |
| `Dockerfile.QualifyingIsIdempotent` | `internal/infra/runtime/podman/build.go:79-100` | Qualifying twice is qualifying once |
| `Dockerfile.LineByLine` | `internal/infra/runtime/podman/build.go:79-100` | The lines of the result are those of the Dockerfile, same number and order, each as it was or rewritten |
| `Dockerfile.NothingToRewrite` | `internal/infra/runtime/podman/build.go:79-100` | A Dockerfile without FROM lines to rewrite stays as it is, character for character |
| `Dockerfile.RewrittenLine` | `internal/infra/runtime/podman/build.go:86-97` | A rewritten line has the same indentation and words, but for the image |
| `Dockerfile.IsFromIff` | `internal/infra/runtime/podman/build.go:82-86` | A line is taken for one that starts a stage if and only if its first four letters are FROM, in any case, and a blank follows |
| `Dockerfile.RewrittenStartsStage` | `internal/infra/runtime/podman/build.go:83-97` | What is rewritten does start a stage |
| `Dockerfile.Trimmed` | `internal/infra/runtime/podman/build.go:82-82` | Trimming takes off white space at both ends, all of it, and nothing else |
| `Dockerfile.LineTwice` | `internal/infra/runtime/podman/build.go:86-97` | The image of a rewritten line is a fixed point of the qualification |
| `Dockerfile.QualifyFixes` | `internal/infra/runtime/podman/util.go:8-20` | A qualified name names its registry, qualifying is idempotent, and leaves alone exactly the names that do |
| `Dockerfile.QualifiedIff` | `internal/infra/runtime/podman/util.go:8-20` | A name is left alone if and only if what is before its first slash has a dot or a colon in it or is the local host; otherwise the hub's name is put in front, for Podman only |
| `Dockerfile.RightIff` | `internal/infra/runtime/podman/build.go:79-100` | A line that starts a stage comes out as it should, its image qualified if need be and nothing else touched, if and only if FROM is followed by a blank, no flag stands before the image, and the image is no earlier stage, or else there was nothing to do |
| `Dockerfile.AllRightIff` | `internal/infra/runtime/podman/build.go:79-100` | All stages of a Dockerfile come out right if and only if every line that starts one is of that kind |
| `Dockerfile.FlagTakenForImage` | `internal/infra/runtime/podman/build.go:91-97` | A flag in front of the image is rewritten in the image's place |
| `Dockerfile.StageTakenForImage` | `internal/infra/runtime/podman/build.go:91-97` | The name of an earlier stage is qualified like an image |
| `Dockerfile.CarriageReturnKeptIff` | `internal/infra/runtime/podman/build.go:83-97` | A line that ends in a carriage return keeps it if and only if it is not rewritten |
| `Dockerfile.PiecesAreFree` | `internal/infra/runtime/podman/build.go:80-80` | Lines contain no line feed |
| `Dockerfile.QualifyDockerfileFroms` | `internal/infra/runtime/podman/build.go:79-100` | The loop that overwrites lines computes the specified text |
| `Dockerfile.RewriteAll` | `internal/infra/runtime/podman/build.go:81-98` | Overwrites in place exactly the lines to rewrite |
| `Dockerfile.JoinSplit` | `internal/infra/runtime/podman/build.go:80-99` | Joining the lines of a text gives the text |
| `Dockerfile.SplitJoin` | `internal/infra/runtime/podman/build.go:80-99` | Splitting joined lines gives the lines |
| `Dockerfile.FieldsOfJoin` | `internal/infra/runtime/podman/build.go:88-97` | Taking apart words joined by spaces gives the words |
| `Autoscaler.NoFlapping` | `internal/jobs/service_workers.go:1051-1178` | Over any run mixing local and remote looks, scaling up comes at least 30 s after the previous scaling up, and scaling down at least 3 min after the previous scaling of either kind |
| `Autoscaler.FewScalings` | `internal/jobs/service_workers.go:948-951` | An interval of length L holds at most L/30s + 1 scalings up and L/3min + 1 down |
| `Autoscaler.StaysWaitingIff` | `internal/jobs/service_workers.go:1051-1178` | Which looks that are not quiet leave the waiting period running, in terms of path, load, count, limits, the last scaling up and the call's success |
| `Autoscaler.LoadBeforeDown` | `internal/jobs/service_workers.go:1051-1178` | Over any run, every look in the three minutes before a scaling down is quiet or of that kind |
| `Autoscaler.QuietBeforeDownIff` | `internal/jobs/service_workers.go:1051-1178` | The three minutes before a scaling down were quiet if and only if no look in them was of that kind |
| `Autoscaler.DownDespiteLoadIff` | `internal/jobs/service_workers.go:1051-1178` | And each look of that kind, and no other, leads to a scaling down with load in between |
| `Autoscaler.LoadInBetweenIsForgotten` | `internal/jobs/service_workers.go:1051-1178` | With no room to grow, full load in between is forgotten on a remote worker, and here exactly when the CPU stays below half the target |
| `Autoscaler.LoadWantsOneWay` | `internal/jobs/service_workers.go:1051-1065` | No load is a reason both to add a replica and to remove one, whatever happened before, unless the target is negative |
| `Autoscaler.NewestOfTenIsNinth` | `internal/jobs/service_workers.go:1098-1109` | With ten replicas scaling down picks the ninth |
| `Autoscaler.RunKeepsNames` | `internal/jobs/service_workers.go:993-1115` | Over any run of ticks with at most nine replicas allowed and successful calls, the replica names stay the service's own and the numbers from 2 on without gaps, the count within its limits, and the base container is never removed |
| `Autoscaler.TickChangesTheEnd` | `internal/jobs/service_workers.go:1051-1115` | A tick leaves the table alone, or adds exactly the next number, or removes exactly the last one added |
| `Autoscaler.EndKeepsNames` | `internal/jobs/service_workers.go:1088-1115` | Such a change keeps the form of the replica set and its limits |
| `Autoscaler.PicksLastIff` | `internal/jobs/service_workers.go:1098-1115` | Scaling down picks the replica added last, whatever the number, exactly if the number is limited to nine |
| `Autoscaler.NewReplicaCountsIff` | `internal/jobs/service_workers.go:1088-1096` | A new running replica is counted as one of the service if and only if the manifest bears the service's name |
| `Autoscaler.NewestIsLargest` | `internal/jobs/service_workers.go:1098-1109` | The pick is the largest name other than the service's own, and there is none only when no other is listed |
| `Autoscaler.Scaler.Scale` | `internal/jobs/service_workers.go:1051-1085` | The switch over the measured load scales, starts or stops waiting exactly as specified |
| `Autoscaler.Scaler.ProcessLocal` | `internal/jobs/service_workers.go:993-1086` | The local tick leaves the specified table and history entry, and other entries alone |
| `Autoscaler.Scaler.ProcessRemote` | `internal/jobs/service_workers.go:1117-1178` | The remote tick sends the specified command and leaves the specified history entry |
| `Autoscaler.Scaler.Measure` | `internal/jobs/service_workers.go:1031-1047` | Averages over the containers whose load could be read, if any |
| `Autoscaler.AverageBetween` | `internal/jobs/service_workers.go:1031-1047` | The average lies between any bounds of the loads that could be read |
| `Autoscaler.AverageAppended` | `internal/jobs/service_workers.go:1031-1047` | A container whose load could be read moves the average, times the number of those that could be read, by just its load; one whose load could not be read does not count |
| `Autoscaler.NoAverageIff` | `internal/jobs/service_workers.go:1041-1043` | There is no average if and only if no load could be read |
| `Autoscaler.Remembered` | `internal/jobs/service_workers.go:1051-1085` | What is remembered, told by what has happened: the times of the last scalings that succeeded, and the beginning of a waiting period that no scaling has ended and that has not been dropped |
| `Autoscaler.LocalTickIs` | `internal/jobs/service_workers.go:1023-1085` | A local tick as one table of cases: what becomes of the containers and of what is remembered, by load, count and time |
| `Autoscaler.Scaler.RemoveNewest` | `internal/jobs/service_workers.go:1098-1115` | Removes the container with the largest name other than the service's own |
| `StopTracker.SuppressedIff` | `internal/jobs/events_webhooks.go:26-41` | A death is explained exactly if a stop or request to terminate of the same container came less than 3 s before and no non-zero death of it since |
| `StopTracker.ExplanationsDiffer` | `internal/jobs/events_webhooks.go:32-41` | Different explained deaths have different earlier stops of the same container, less than 3 s before |
| `StopTracker.DiesAreExplainedOrHealed` | `internal/jobs/events_webhooks.go:115-123` | Every other non-zero death of an unslotted, named container is sent to healing, and no explained one is |
| `StopTracker.HealedIff` | `internal/jobs/events_webhooks.go:78-128` | Exactly which events are sent to healing, told without the tracker: kills by other signals than the request to terminate, lack of memory, and unexplained deaths of containers outside slots |
| `StopTracker.LeftOverStop` | `internal/jobs/events_webhooks.go:26-41` | The stop event behind a wanted death is left over and explains a crash that follows within 3 s |
| `StopTracker.ServiceOfSlot` | `internal/jobs/events_webhooks.go:200-207` | A heal for a slot's container names its service |
| `StopTracker.Watcher.HandleContainerEvent` | `internal/jobs/events_webhooks.go:78-128` | Handling an event updates the tracker and queues a heal exactly as specified |
| `StopTracker.Tracker.WasRecentlyStopped` | `internal/jobs/events_webhooks.go:32-41` | Tells whether the container was stopped less than 3 s ago, and uses the record up |
| `Certificates.NothingLeftExpiring` | `internal/platform/ca/ca.go:109-142` | After an uninterrupted renewal that went through, no unrevoked, unrenewed certificate expires before the threshold |
| `Certificates.SecondRunChangesNothing` | `internal/platform/ca/ca.go:109-142` | Right after an uninterrupted renewal that went through, a second one at the same threshold changes nothing |
| `Certificates.CountsConserved` | `internal/platform/ca/ca.go:117-140` | However a renewal that nothing interrupts goes, each owner keeps its number of unrevoked, unrenewed certificates, but for one more where a new one could not be linked |
| `Certificates.RenewalKeepsLinks` | `internal/platform/ca/ca.go:127-138` | Links to renewed certificates are injective, lead to later ids of the same owner, and a link back answers a link, however an uninterrupted renewal goes; links back are the inverse when they are written |
| `Certificates.SuccessorsAreGood` | `internal/platform/ca/ca.go:109-142` | After an uninterrupted renewal that went through, following the links from any certificate ends at one that is revoked or good beyond the threshold |
| `Certificates.HistoryStays` | `internal/platform/ca/ca.go:117-140` | An uninterrupted renewal only adds rows, and links to rows it was asked to renew |
| `Certificates.Authority.RenewExpiring` | `internal/platform/ca/ca.go:109-142` | The loop leaves the specified table and succeeds exactly if every renewal did |
| `Certificates.Authority.FindExpiring` | `internal/platform/ca/ca.go:112-118` | Finds exactly the rows that are due |
| `Certificates.Authority.IssueCert` | `internal/platform/ca/ca.go:220-276` | Appends a row valid for 90 days |
| `Certificates.Authority.RevokeWorkerCert` | `internal/platform/ca/ca.go:96-107` | Every row of the worker becomes revoked, no other field and no other row changes |
| `Certificates.RevocationEndsWorker` | `internal/platform/ca/ca.go:96-107` | Right after a revocation the worker has no active certificate, every other owner has those it had, and revoking again changes nothing |
| `Certificates.Authority.LinkCert` | `internal/platform/ca/ca.go:131-137` | Links an old row to the new one and touches no other field |
| `Certificates.Authority.SaveCert` | `internal/platform/ca/ca.go:138-139` | Writes the whole row back as it is held in memory |
| `Renewals.ActiveAfterRevocationIff` | `internal/platform/ca/ca.go:96-142` | From any table, over any run of the renewal job's steps with revocations, issues and restarts in between: after the last revocation of a worker, with no certificate issued to it on request since, the worker has an active certificate if and only if the job, before it queries again, still signed one for a row of that worker queried before the revocation, or wrote its new row back |
| `Renewals.StaysRevoked` | `internal/platform/ca/ca.go:96-142` | A worker without active certificates, of which a renewal under way holds no row and to which none is issued on request, stays without over any number of renewals |
| `Renewals.IssuedStaysActive` | `internal/platform/ca/ca.go:74-76` | A certificate issued on request leaves the worker with an active one until it is revoked, whatever renewals do |
| `Renewals.RevokedWhileQueried` | `internal/platform/ca/ca.go:112-130` | A run in which a worker revoked after the query gets a new active certificate |
| `Renewals.SavingUndoesRevocation` | `internal/platform/ca/ca.go:127-139` | A run in which saving the new row again takes its revocation back |
| `Renewals.RunKeepsLinks` | `internal/platform/ca/ca.go:96-142` | Links to renewed certificates stay injective and lead to later ids of the same owner, and links back answer links, over any run with revocations, issues and restarts between the writes of a renewal, and with any failures |
| `Renewals.InterruptedLeavesNothing` | `internal/platform/ca/ca.go:109-142` | After a renewal that went through, whatever was issued and revoked between its steps, no unrevoked, unrenewed certificate expires before the threshold |
| `Renewals.UninterruptedIsRenewAll` | `internal/platform/ca/ca.go:120-140` | Without calls in between the steps of the job amount to the renewal as a whole |
| `Certificates.LaterIsInTime` | `internal/platform/ca/ca.go:22-24` | New certificates outlast the threshold when the clock does not run backwards |
| `LogMonitor.WatchesTheRunning` | `internal/logmon/logwatcher.go:137-194` | After a round exactly the running containers that are not internal are being followed |
| `LogMonitor.ReconcileKeepsValid` | `internal/logmon/logwatcher.go:137-194` | Every watch that was started either is on or was cancelled, exactly once |
| `LogMonitor.OneWatchEach` | `internal/logmon/logwatcher.go:166-172` | No container has two live watches |
| `LogMonitor.StopCancelsAll` | `internal/logmon/logwatcher.go:196-203` | After stopping, every watch ever started has been cancelled exactly once |
| `LogMonitor.ScannedOnce` | `internal/logmon/logwatcher.go:174-193` | Over any run a container is scanned at most once while it keeps being listed |
| `LogMonitor.EndedIsScanned` | `internal/logmon/logwatcher.go:174-193` | Every ended container is scanned in exactly one of the rounds since which it has been listed |
| `LogMonitor.WholeLife` | `internal/logmon/logwatcher.go:118-203` | From start to stop: after each round exactly the running containers that are not internal are followed, never one twice, and in the end every watch ever started has been cancelled exactly once |
| `LogMonitor.RoundScans` | `internal/logmon/logwatcher.go:174-193` | A round scans, once each, exactly the ended containers not marked, and marks stay on listed ones only |
| `LogMonitor.Monitor.Reconcile` | `internal/logmon/logwatcher.go:137-194` | The round as carried out does what is specified and keeps the books |
| `LogMonitor.Monitor.StopAll` | `internal/logmon/logwatcher.go:196-203` | Cancels all watches |
| `LogMonitor.Monitor.CancelGone` | `internal/logmon/logwatcher.go:154-159` | Cancels exactly the watches of containers outside the set, each once |
| `Dedup.PruningIsInvisible` | `internal/logmon/logwatcher.go:409-425` | Throwing entries older than ten windows away changes no verdict compared with an unbounded history |
| `Dedup.KeptIff` | `internal/logmon/logwatcher.go:409-425` | What is kept is exactly what was not older than ten windows at the last call |
| `Dedup.DuplicateIff` | `internal/logmon/logwatcher.go:409-425` | A message is suppressed exactly if one of the same key was let through less than a window before |
| `Dedup.PassedAreApart` | `internal/logmon/logwatcher.go:409-425` | Messages let through under one key are at least a window apart |
| `Dedup.Filter.IsDuplicate` | `internal/logmon/logwatcher.go:409-425` | Prunes, answers and notes the message as specified |
| `Frames.RoundTrip` | `internal/logmon/logwatcher.go:362-376` | Reading written frames yields them in order, and leaves exactly the incomplete rest |
| `Frames.Lossless` | `internal/logmon/logwatcher.go:362-376` | The frames read and what is left over make up the stream again |
| `Frames.CutOff` | `internal/container/stream.go:54-85` | A stream cut off anywhere yields exactly the frames that are completely there |
| `Frames.WholeFits` | `internal/container/stream.go:54-85` | Those end before the cut, and the next one does not |
| `Frames.ReadDockerLogLine` | `internal/logmon/logwatcher.go:362-376` | Reads one frame as a line without trailing line ends, or uses up a stream that holds no complete one |
| `Frames.MonitorLines` | `internal/logmon/logwatcher.go:302-360` | Until the stream ends, the monitor reads one line per complete frame and uses up the stream |
| `Frames.StreamLogs` | `internal/container/stream.go:54-85` | Passes on the non-empty payloads of the complete frames with their stream, and reports the end only when it comes between frames or within a header |
| `Frames.EventsCarryAll` | `internal/container/stream.go:54-85` | The events carry all that was written to each of the two output streams, the second one marked as standard error; none is empty; and the end is reported, last, if and only if the stream ends within a header |
| `Frames.EventsOfWritten` | `internal/container/stream.go:54-85` | Non-empty frames arrive as one event each, in order, with their stream |
| `Frames.ChunkOfWritten` | `internal/container/stream.go:62-75` | A reader meets the frame that was written and, when it is cut off, the end within the header or within the payload |
| `Frames.TrimmedLinesAre` | `internal/logmon/logwatcher.go:362-376` | Line ends, and only these, are taken off the end of each payload |
| `Frames.ReadStream` | `internal/infra/caddy/logwatcher.go:89-118` | Yields the entries among the non-empty payloads of the complete frames, in order |
| `Frames.EntriesAppended` | `internal/infra/caddy/logwatcher.go:89-118` | One more frame adds the entry its payload stands for, if it is not empty and stands for one, behind the others |
| `Frames.SizeRoundTrip` | `internal/logmon/logwatcher.go:367-367` | Reading a size written most significant byte first gives the size |

## Left out

- Logging, notifications, metrics, audit records and event publishing: nothing that is modelled depends on them.
- The action `redeploy` of the control loop: no tick ever chooses it.
- The database: writes of a service's row and active slot succeed, and rows are read as they were written; only the certificate table's writes may fail.
- Listings hide containers with the internal label, and manifests may set labels of their own: neither is modelled, labels are those the control plane sets.
- The route itself: `BlueGreen` follows where it points, not that the ingress removes it for a moment when it changes it, nor TLS and redirects.
- Container ids: the daemon is taken to hand out ids that are not in use at the time, and to list the table as it is; the theorems say so in their conditions.
- Rounds.OrderIrrelevant: assumes that the daemon lists a service's own containers in the same order in both rounds, since a rolling update numbers the replicas in listing order.
- Dockerfile.AllRightIff: parser directives, continuation lines and here-documents are not modelled, every line stands for itself.
- The cleanup of the jobs queue, which also matches containers by name prefix, is not modelled; isolation is a claim about the control loop.
- BlueGreen.Deployer.StartNew: models the control loop's deploy; the second copy in the jobs queue (local path) takes the service label from the resolved manifest, which is the same only when the manifest bears the service's name.
- Arithmetic on averages is over real numbers; the remote worker's memory percentage is an input.
- AgentProtocol.NothingLeftBehind: assumes unique command ids, which the callers make up at random; correlation itself does not need that.
- AgentProtocol: a message counts as arrived when it is looked up under the lock; receiving it from the stream is not a step of its own. That the loop ends with its stream is not modelled.
- LogChannels: cancelling a consumer is its closing of the stream; writing to the browser is left out.
- RateLimiter.BoundIsMet: the clock must be able to tell k instants apart within a window, which nanoseconds do.
- Dockerfile: upper-casing is modelled for the four letters of FROM only, since no other letter becomes one of them; text is a sequence of characters, not of bytes.
- Frames.ReadStream: trimming white space and parsing an entry are one given table of what chunks stand for; cancelling a reader from outside is left out.
- LogMonitor: whether a watch has ended by itself, classification of lines, blocks of lines and the truncation of messages are left out; a watch that ended is not started again while its container runs.
- Interpolation: default values, required variables and generated credentials of templates are left out. Keys with braces are outside of the theorems.
- Interpolation.OrderDoesNotShow: like the other results on single templates without nested placeholders it is for values without braces; `Interpolation.OrderNeverShowsIff` covers all values, over all templates.
- Certificates: keys, signing and serial numbers are left out; soft deletion of rows is not modelled. A query or a revocation that fails has no effect and is not a step. There is one renewal job in one process.
- HTTP handlers, web sockets, gRPC plumbing, configuration and cryptography: wiring and library calls with no property of their own here.
