# LBaaS reconciliation

A model of the Anexia cloud controller manager's load balancer reconciliation, and
proofs about it. `dafny verify dfyconfig.toml` checks the whole project.

A service of type LoadBalancer is realised on one or more LBaaS LoadBalancers. For
each of them a reconciliation reads what the Engine holds under the service's tag,
compares it in four layers (Backends, Frontends on Backends, Binds on Frontends,
Servers on Backends) with what the service asks for, and destroys, creates and waits
until there is no difference. Several reconciliations work on the same Engine and the
same tag at the same time. Around them the provider allocates addresses, merges the
statuses of all LoadBalancers and writes them back to the service.

## How the model is built

The Engine (`Engine.dfy`) is a store of records with attributes, a state and tags. It
honours references. Every call of a reconciliation starts with a move of the
environment, which may do anything to other LoadBalancers' resources; what is proved
about a reconciliation therefore holds for every interleaving with others, also while
these destroy. In return every changing call is logged with the stores before and after
it, and is proved to leave the others' resources alone, to number new resources anew and
to keep kinds and references (`Polite`); every Get is recorded with its answer and the
store at that moment. `Histories.dfy` shows that any stretch of calls which keep to this
provides everything a reconciliation relies on (`Relied`), and that what becomes of its
resources in a reliable Engine is what its own calls make of them (`Carried`).
`Interleaving.dfy` places the runs of several reconciliations in one history of calls, and
derives from there that they converge. An Engine need not be `reliable`: it may lose answers,
answer a Destroy too early or not carry it out, hit rate limits, and report any state.
What needs a reliable Engine says so.

The reconciliation (`Reconciliation.dfy`) is a class with the fields of the Go struct
and its methods, in place. Lemmas about plain values stand beside it: what the four
steps want (`Layout.dfy`), how the topology moves from iteration to iteration
(`Convergence.dfy`), the retry loop (`DestroyLoop.dfy`), creating (`Creating.dfy`), and
whole runs as sequences of rounds (`Rounds.dfy`, `Conditions.dfy`, `Outcomes.dfy`). Where
connections end once a LoadBalancer has converged is told in `Routing.dfy`, by following the
references from Bind to Server.

Hypotheses of the convergence result, all of them in `Recon.Healthy`: a reliable Engine
in which everything of ours is ready, `backoffSteps` at least one, no two equal Backends
or Frontends in the working set, and no resource of this LoadBalancer outside the working
set that refers into it. Nothing is asked of the others: the run completes if and only if
nobody else destroys what it has listed last before it fetches it
(`Interleaving.MachinesConverge`). What goes wrong without the hypotheses is shown, with
the exact conditions, by `Outcomes.NilWithoutCheck`, `Outcomes.NilIff` and
`DestroyLoop.CheckedLoopEnds`. An untagged resource, as an unanswered Create or a failed
tag leaves it behind, is such a resource outside (`DestroyLoop.HalfMadeNeverEnds`).

Hypotheses about the Engine, wherever there is one: a Frontend and its Backend are on the
same LoadBalancer (`Resources.ParentExists`); and a Destroy that was answered before it
was carried out is not carried out later on its own, since nothing of ours changes between
our calls but states (`Engines.Relied`). It may well be carried out by the next Destroy of
the same resource, which the next check asks for.

Contracts that stand for code outside the repository: the comparison helpers
(`Compare.dfy`), sorting and compacting (`Services.Sort`, `Services.Compact`), the
Engine's API, and the parsing of addresses, which is a function parameter.

## Where the code and its comments differ

The model follows the code.

- After waiting for progressing resources Reconcile does not check again: both lists are
  nil, so it returns nil. A nil means that there is nothing left to do exactly if the last
  check saw everything ready (`Outcomes.NilIff`, `Outcomes.NilWithoutCheck`).
- A failed Destroy also sets allowRetry, so the retry loop goes on for ever exactly if
  something outside the working set refers into the list (`DestroyLoop.CheckedLoopEnds`),
  and the pending gauge counts failed attempts as done (`Rounds.GaugesReturn`).
- A rate limit on the first object of a pass gives up with ErrResourcesNotDestroyable, on
  any later one it leads to a new check (`Recon.DestroyRound`).
- An error while creating leaves the pending gauge raised by the objects not attempted
  (`Recon.CreatePhase`).
- All four steps always run. A layer that is not settled makes everything above it
  unwanted; that is what encloses the list to be destroyed (`Layout.DependencyClosure`).
- mergeReconStatus counts occurrences, not statuses. It is the intersection exactly if,
  for every address, each port counted at least as often as there are statuses is listed
  once by all of them, or no port is listed by all and one is counted more often
  (`MultiRecon.MergeIntersectsIff`). A port listed twice makes an address get lost, or
  reports a port that is not everywhere (`MultiRecon.DuplicatesGetLost`).
- Ports are told apart by name, so a service may use one number twice, as for TCP and UDP.
  Each of its addresses is then lost from the merged status, and the load balancer never
  counts as created, although all reconciliations converge (`MultiRecon.EndToEndStatus`,
  `SharedNumber.SameNumberIsLost`). The same happens to an address on which a Bind has a
  twin, which can only be if an address is given twice, as by naming a family twice, or if
  there were equal objects before (`Statuses.UniqueNoTwins`).
- Names of Binds and Servers have two parts joined by a dot. They tell ports apart exactly
  if no port name is empty or ends with a dot and the other (`Names.TwoPartsInjectiveIff`);
  nothing depends on it, since objects are compared by all attributes
  (`Layout.TargetServersDistinct`).
- The listing is by tag only, so a resource of another LoadBalancer that is destroyed
  between listing and fetching makes the check fail (`Interleaving.ListingIsShared`).
- lbStatusFromReconcileStatus reports the union of all ports for every address.
- calculateVIP wraps around for a prefix that covers the whole address of which the last
  byte is zero (`Vip.VipIsBeforeBroadcast`).

## Model

| member | source | states |
|---|---|---|
| `Reconciliation.Recon.Reconcile` | anx/provider/loadbalancer/reconciliation/reconciliation.go:240-349 | For every Engine and every behaviour of the others: a run is a chronicle of faithful rounds; calls, Gets and gauges add up; a nil follows a check that found nothing to do exactly if that check left existingProgressing empty, and then the topology is the intended one exactly if no Backend or Frontend is there twice (which a sane start guarantees). From a healthy start, whatever the others create and destroy meanwhile: at most five checks, only the first can call for destroying, and the intended topology is reached exactly if every retrieval succeeds; otherwise the run ends with the retrieval that failed, and is still healthy. |
| `Reconciliation.Recon.Continue` | anx/provider/loadbalancer/reconciliation/reconciliation.go:243-346 | One more turn of the loop keeps the books, extends the run by one faithful round, keeps sanity and uniqueness, and on a healthy course either stays on it or ends as a healthy run does. |
| `Reconciliation.Recon.Iterate` | anx/provider/loadbalancer/reconciliation/reconciliation.go:243-346 | One turn: check, then destroy, else create, else finish; after a successful wait it ends without a second check. The round is faithful and the gauges change by what it set out to do less what it attempted. |
| `Reconciliation.Recon.Act` | anx/provider/loadbalancer/reconciliation/reconciliation.go:268-343 | Destroying comes before creating, creating happens only with nothing to destroy, and completion only with neither. |
| `Reconciliation.Recon.GiveUp` | anx/provider/loadbalancer/reconciliation/reconciliation.go:246-258 | Every error of the check ends the run with that error, except that progressing resources are waited for; the wait's error ends the run, its success ends it with nil. |
| `Rounds.RecoveryComesLast` | anx/provider/loadbalancer/reconciliation/reconciliation.go:174-196 | Failed objects are reset in the last round of a run only; that round makes no other call, and the run ends with an error. |
| `Rounds.RecoveredOnce` | anx/provider/loadbalancer/reconciliation/reconciliation.go:226-236 | No object is reset twice in a run. |
| `Rounds.UnhealthyIsLeftAlone` | anx/provider/loadbalancer/reconciliation/reconciliation.go:179-196 | A round that saw an object which is failed, updating or progressing creates nothing, destroys nothing, and is the last. |
| `Rounds.RunOwn` | anx/provider/loadbalancer/reconciliation/reconciliation.go:272-331 | Every changing call of a run is made for the run's own LoadBalancer and leaves all other LoadBalancers' resources as they were, states included. |
| `Rounds.CreatedIsTagged` | anx/provider/loadbalancer/reconciliation/reconciliation.go:313-331 | Over a whole run: what is created with success is tagged in the very next call, with success, unless that call is the last of the run and the run ends with this error; a Create without success is the last call of a run that ends with that error. |
| `Outcomes.NilIff` | anx/provider/loadbalancer/reconciliation/reconciliation.go:240-258 | A run that returns nil has checked that nothing is left to do if and only if everything its last check saw was ready; then the topology is the intended one unless a Backend or Frontend is there twice. Otherwise the last round called nothing and saw what it waited for become fine. |
| `Outcomes.NilWithoutCheck` | anx/provider/loadbalancer/reconciliation/reconciliation.go:246-258 | A check of a store that does not change meanwhile can end in a nil without a further check if and only if nothing of the working set has failed or is updating and something of it is progressing, whatever the working set is. |
| `Outcomes.NilOnUnfinished` | anx/provider/loadbalancer/reconciliation/reconciliation.go:246-258 | So it does on a store that holds one pending Backend for a port and no Frontend yet, which is not the intended topology. |
| `Rounds.OnlyVanished` | anx/provider/loadbalancer/reconciliation/reconciliation.go:524-592 | If the Engine answers everything, a check fails to retrieve exactly if a listed resource was gone when it was fetched. |
| `Rounds.ExactIsLeftAlone` | anx/provider/loadbalancer/reconciliation/reconciliation.go:240-349 | Running again on the intended topology issues no Create and no Destroy and ends with that round; if all is ready it issues nothing at all. |
| `Rounds.FifthFinishes` | anx/provider/loadbalancer/reconciliation/reconciliation.go:240-349 | A healthy run has at most five rounds, the fifth finds nothing to do, and no round but the first has anything to destroy. |
| `Rounds.GaugesReturn` | anx/provider/loadbalancer/reconciliation/reconciliation.go:268-331 | After a run that returns nil and hit no rate limit the gauge of creations is back at its start, and the gauge of destructions is below it by the number of refused Destroys; so it is back exactly if nothing was refused. |
| `Rounds.RoundBalanced` | anx/provider/loadbalancer/reconciliation/reconciliation.go:268-331 | A round that does not end with an error and hits no rate limit takes off the gauges what it put on, and one more for each refusal. |
| `Convergence.ConvergesWithinFive` | anx/provider/loadbalancer/reconciliation/reconciliation.go:240-349 | Any sequence of snapshots in which each iteration does what it set out to do has at most five elements, only the first can call for destroying, and it is done exactly when it shows the intended topology. |
| `Convergence.IterationDescends` | anx/provider/loadbalancer/reconciliation/reconciliation.go:259-343 | Every iteration strictly lowers a rank of at most four and leaves nothing to be destroyed next. |
| `Convergence.SweepClears` | anx/provider/loadbalancer/reconciliation/reconciliation.go:268-308 | One destroying iteration is enough: nothing of what it leaves becomes superfluous. |
| `Convergence.GrowthDescends` | anx/provider/loadbalancer/reconciliation/reconciliation.go:309-340 | Creating settles one more layer and makes nothing superfluous. |
| `Convergence.LinksUnique` | anx/provider/loadbalancer/reconciliation/reconcile_backends.go:35-46 | Without equal Backends or Frontends, what the steps store as links is determined by the topology. |
| `Convergence.FixpointIffExact` | anx/provider/loadbalancer/reconciliation/reconciliation.go:114-115 | There is nothing to create and nothing to destroy if and only if the topology is the intended one: one Backend and one Frontend for each port, a Bind for each address and port, a Server for each node and port, each on the right parent, and nothing else. |
| `Convergence.ExactUniqueParents` | anx/provider/loadbalancer/reconciliation/reconciliation.go:114-115 | In the intended topology no Backend and no Frontend is there twice. |
| `Routing.Routed` | anx/provider/loadbalancer/reconciliation/reconcile_servers.go:30-51 | Told from the fields of the resources alone: in the intended topology each address has a Bind for the external number of each port, whose Frontend leads to a Backend that has a Server for an address and a number if and only if a node has this address and the number is the internal one of that very port. |
| `Routing.ReachesIff` | anx/provider/loadbalancer/reconciliation/reconcile_binds.go:43-68 | A connection to a number on an address can end at a number on a node exactly if the address is one of the service, some port of it has these two numbers outside and inside, and some node has the address it ends at. |
| `Routing.ExactFurnished` | anx/provider/loadbalancer/reconciliation/reconcile_backends.go:12-21 | Names, modes, health check, Server check and LoadBalancer of every resource of the intended topology, spelled out. |
| `Routing.ServiceReachesNodes` | anx/provider/loadbalancer/loadbalancer.go:266-283 | On a converged LoadBalancer a connection to any port of the service, on any of its addresses, ends at the node port of that port on every node; both numbers are cut to 16 bits. |
| `Routing.OnlyNodesReached` | anx/provider/loadbalancer/loadbalancer.go:266-283 | And nothing else is reached: whatever a connection ends at is a node, at the node port of a port of the service whose number it was made to. |
| `Convergence.NoPortsNothing` | anx/provider/loadbalancer/loadbalancer.go:316-320 | With no ports, which is how a deleted service is reconciled, the intended topology is the empty one. |
| `Creating.ExactlyOnce` | anx/provider/loadbalancer/reconciliation/reconciliation.go:114-115 | In the intended topology without equal objects an object is there exactly once if it is wanted, and not at all otherwise. |
| `Reconciliation.Recon.ReconcileCheck` | anx/provider/loadbalancer/reconciliation/reconciliation.go:174-219 | It fails to retrieve exactly if there is no listing or a listed resource could not be fetched; the exit taken depends exactly on the conditions of the objects seen, each of which is an answer of the Engine; without an error the lists are exactly the missing targets and the unwanted objects of the working set, and nothing has been called. |
| `Reconciliation.Recon.Decide` | anx/provider/loadbalancer/reconciliation/reconciliation.go:179-219 | Failed objects take precedence over updating ones, these over progressing ones; the steps run only if there are none. |
| `Reconciliation.Recon.RunSteps` | anx/provider/loadbalancer/reconciliation/reconciliation.go:201-219 | All four steps together: toCreate is what is wanted and absent, toDestroy what is present and unwanted, no Backend or Frontend is to be created twice, and nothing at all if addresses and node names are distinct. |
| `Reconciliation.Recon.UpdateFailedResources` | anx/provider/loadbalancer/reconciliation/reconciliation.go:226-236 | One Update for each failed object, in order, up to the first that fails. |
| `Conditions.CheckByStates` | anx/provider/loadbalancer/reconciliation/reconciliation.go:174-196 | Told from the fields of the states: a check that has retrieved stops for recovery exactly if it saw something updating or in Error, waits exactly if it saw nothing of that and something Pending, and goes on exactly if all was OK or of unknown state and not updating. |
| `Conditions.ResetsByStates` | anx/provider/loadbalancer/reconciliation/reconciliation.go:226-236 | A check that stops for recovery updates the objects in Error that were not updating, in the order in which they were seen, and no other: all of them, unless an Update fails, which is then the last. |
| `Conditions.UpdatedWasFailed` | anx/provider/loadbalancer/reconciliation/reconciliation.go:179-188 | Whatever a run updates was seen in Error and not updating by its last check. |
| `Conditions.NilByStates` | anx/provider/loadbalancer/reconciliation/reconciliation.go:240-258 | The last check of a run that returns nil saw nothing updating and nothing in Error, and something Pending exactly if the nil follows a wait. |
| `Layout.DependencyClosure` | anx/provider/loadbalancer/reconciliation/reconcile_frontends.go:15-29 | What a wanted object refers to exists, is wanted, is of the right kind and on the same LoadBalancer; so whatever refers to an object to be destroyed is to be destroyed too. |
| `Layout.TargetNamesDistinct` | anx/provider/loadbalancer/reconciliation/reconciliation.go:629-638 | Target names of different ports differ, so looking up by name picks the right Backend and Frontend. |
| `Layout.TargetServersDistinct` | anx/provider/loadbalancer/reconciliation/reconcile_servers.go:32-60 | No two target Servers of different nodes or ports compare equal, also where their names collide. |
| `Layout.TargetBindsDistinct` | anx/provider/loadbalancer/reconciliation/reconcile_binds.go:45-68 | No two target Binds of different addresses or ports compare equal. |
| `Reconciliation.Recon.ReconcileBackends` | anx/provider/loadbalancer/reconciliation/reconcile_backends.go:12-49 | The Backend step yields the missing and the unwanted Backends, and fills portBackends exactly when there are none of either, then with an existing Backend for every port. |
| `Reconciliation.Recon.CompareBackends` | anx/provider/loadbalancer/reconciliation/reconcile_backends.go:13-46 | The same for the step before its links are stored. |
| `Reconciliation.Recon.BuildBackends` | anx/provider/loadbalancer/reconciliation/reconcile_backends.go:13-21 | Exactly the wanted Backends, one for each port, none twice. |
| `Reconciliation.Recon.ReconcileFrontends` | anx/provider/loadbalancer/reconciliation/reconcile_frontends.go:12-57 | The Frontend step likewise, against the Backends just linked. |
| `Reconciliation.Recon.CompareFrontends` | anx/provider/loadbalancer/reconciliation/reconcile_frontends.go:13-54 | The same for the step before its links are stored. |
| `Reconciliation.Recon.BuildFrontends` | anx/provider/loadbalancer/reconciliation/reconcile_frontends.go:13-29 | Exactly the wanted Frontends: one for each port that has a Backend, none twice. |
| `Reconciliation.Recon.Link` | anx/provider/loadbalancer/reconciliation/reconcile_backends.go:35-46 | Each port is linked to the target that carries its name. |
| `Reconciliation.Recon.ReconcileBinds` | anx/provider/loadbalancer/reconciliation/reconcile_binds.go:43-83 | The Bind step yields the missing and the unwanted Binds of all addresses and of all ports that have a Frontend. |
| `Reconciliation.Recon.BuildBinds` | anx/provider/loadbalancer/reconciliation/reconcile_binds.go:44-68 | Exactly the wanted Binds, from each pair of an address and a port with a Frontend, each pair once. |
| `Reconciliation.Recon.ReconcileServers` | anx/provider/loadbalancer/reconciliation/reconcile_servers.go:30-66 | The Server step yields the missing and the unwanted Servers of all nodes and of all ports that have a Backend. |
| `Reconciliation.Recon.BuildServers` | anx/provider/loadbalancer/reconciliation/reconcile_servers.go:31-51 | Exactly the wanted Servers, from each pair of a node and a port with a Backend, each pair once; where they lead is said by `Routing.Routed`. |
| `Steps.BackendsSettledIff` | anx/provider/loadbalancer/reconciliation/reconcile_backends.go:35-46 | The Backend step has nothing to do exactly if every port has its Backend and there is no other. |
| `Steps.FrontendsSettledIff` | anx/provider/loadbalancer/reconciliation/reconcile_frontends.go:43-54 | The Frontend step has nothing to do exactly if every linked port has its Frontend and there is no other. |
| `Steps.LinkedBackends` | anx/provider/loadbalancer/reconciliation/reconcile_backends.go:35-46 | Each port is linked to an existing Backend that looks as the port wants it. |
| `Steps.LinkedFrontends` | anx/provider/loadbalancer/reconciliation/reconcile_frontends.go:43-54 | Each port is linked to an existing Frontend that looks as the port wants it, on the Backend linked to the port. |
| `Compare.Reconcile` | anx/provider/loadbalancer/reconciliation/reconcile_backends.go:26-33 | What the comparison is relied upon for: missing targets, unmatched existing objects, and identifiers taken over from equal existing objects. |
| `Names.MakeResourceName` | anx/provider/loadbalancer/reconciliation/reconciliation.go:629-638 | The loop over the parts yields the non-empty parts and the suffix joined by dots. |
| `Names.FirstPartInjective` | anx/provider/loadbalancer/reconciliation/reconciliation.go:629-638 | The first part can be read back from a name, also if it, the other parts or the suffix are empty. |
| `Names.TwoPartsInjectiveIff` | anx/provider/loadbalancer/reconciliation/reconciliation.go:629-638 | Both parts of a two-part name can be read back, whatever the first parts are, if and only if the second parts are equal, or neither is empty or ends with a dot and the other. |
| `Names.DotlessTwoPartsInjective` | anx/provider/loadbalancer/reconciliation/reconciliation.go:629-638 | So for port names that are not empty and have no dot, as Kubernetes demands of several ports, two names are the same only if both parts are. |
| `Names.DottedNamesCollide` | anx/provider/loadbalancer/reconciliation/reconciliation.go:629-638 | A witness: for the empty port name and for "http", which one service cannot have together, a dotted node name makes two names the same. |
| `Names.PlainPartsInjective` | anx/provider/loadbalancer/reconciliation/reconciliation.go:629-638 | Any number of parts, not empty and without dots, can be read back from a name in their order, whatever the suffix. |
| `Reconciliation.Recon.RetrieveState` | anx/provider/loadbalancer/reconciliation/reconciliation.go:469-486 | For any order of the listing, and while others create and destroy: it fails exactly if there is no listing or one of the Gets that follow it, of the listed resources of known types in order, does not find its resource; otherwise the lists hold exactly the working set, each object as the Engine answered, sorted by the states seen. |
| `Reconciliation.Recon.RetrieveResources` | anx/provider/loadbalancer/reconciliation/reconciliation.go:520-627 | The same for the retrieval inside. |
| `Reconciliation.Recon.RetrieveTyped` | anx/provider/loadbalancer/reconciliation/reconciliation.go:578-601 | A retrieved object is kept exactly if it belongs to this LoadBalancer, or might turn out to, once Frontends and Backends are known. |
| `Retrieval.PutFetched` | anx/provider/loadbalancer/reconciliation/reconciliation.go:543-575 | Storing a fetched object extends what has been retrieved of the working set by exactly that object: a Frontend or Backend if it is on this LoadBalancer, a Bind or Server in any case, to be filtered by its parent later. |
| `Reconciliation.Recon.FilterBinds` | anx/provider/loadbalancer/reconciliation/reconcile_binds.go:22-41 | Exactly the Binds whose Frontend is in the working set are kept, each once, and sorted by state. |
| `Reconciliation.Recon.FilterServers` | anx/provider/loadbalancer/reconciliation/reconcile_servers.go:14-28 | Exactly the Servers whose Backend is in the working set are kept, each once, and sorted by state. |
| `Reconciliation.Recon.SortObjectIntoStateArray` | anx/provider/loadbalancer/reconciliation/reconciliation.go:488-501 | An updating object is appended to existingUpdating, any other in Error to existingFailed, any other Pending to existingProgressing, and no array holds anything else. |
| `Reconciliation.Recon.ConditionsSorted` | anx/provider/loadbalancer/reconciliation/reconciliation.go:488-501 | The three arrays hold exactly the objects of the working set that are updating, those of the others that are in Error, and those of the others that are Pending, each once; all are empty exactly if all objects are ready. |
| `Conditions.SelectPicked` | anx/provider/loadbalancer/reconciliation/reconciliation.go:488-501 | Each array keeps the order in which its objects were sorted. |
| `Progress.RetrievedExactly` | anx/provider/loadbalancer/reconciliation/reconciliation.go:520-627 | The lists are determined by the working set, whatever the order of the listing. |
| `Retrieval.TypedPicked` | anx/provider/loadbalancer/reconciliation/reconciliation.go:578-601 | What is fetched are the listed resources of known types, in the order of the listing. |
| `Retrieval.FetchedLeaf` | anx/provider/loadbalancer/reconciliation/reconcile_binds.go:22-41 | A tagged Bind or Server belongs to the working set exactly if its parent does. |
| `Reconciliation.Recon.DestroyPhase` | anx/provider/loadbalancer/reconciliation/reconciliation.go:272-308 | Only listed objects are lost, the gauge changes by the length of the list less the attempts that hit no rate limit, and only a rate limit leaves something undone. With a reliable Engine and an enclosed list three passes destroy all of it and nothing else. |
| `Reconciliation.Recon.DestroyPass` | anx/provider/loadbalancer/reconciliation/reconciliation.go:277-298 | One Destroy for each object in order, a rate limit ends the pass at once; what is kept is what was refused, and another pass is allowed exactly if the pass was not cut short at its first object. |
| `Reconciliation.Recon.DestroyOne` | anx/provider/loadbalancer/reconciliation/reconciliation.go:281-294 | A refused Destroy takes one off the gauge like a successful one; a rate limit does not. |
| `Reconciliation.Recon.DestroyRound` | anx/provider/loadbalancer/reconciliation/reconciliation.go:268-308 | The run is given up as not destroyable exactly if a rate limit hit the first object of a pass; on any later object the run goes on with a new check. |
| `DestroyLoop.RetryLoopEnds` | anx/provider/loadbalancer/reconciliation/reconciliation.go:279-298 | The retry loop ends if and only if nothing outside the list refers into it, and then within three passes. |
| `DestroyLoop.CheckedLoopEnds` | anx/provider/loadbalancer/reconciliation/reconciliation.go:268-298 | Over what a check wants destroyed the retry loop ends if and only if no resource outside the working set refers to any of it, and then within three passes. |
| `DestroyLoop.HalfMadeNeverEnds` | anx/provider/loadbalancer/reconciliation/reconciliation.go:279-298 | A Backend with an untagged Frontend on it, and no ports: the list is the check's own, and no number of passes empties it. |
| `DestroyLoop.DoomedEnclosedIff` | anx/provider/loadbalancer/reconciliation/reconciliation.go:201-219 | What a check wants destroyed is enclosed exactly if no resource outside the working set refers into it. |
| `DestroyLoop.ThreePasses` | anx/provider/loadbalancer/reconciliation/reconciliation.go:279-298 | Three passes destroy an enclosed list, whatever its order, and nothing else. |
| `DestroyLoop.PassShortens` | anx/provider/loadbalancer/reconciliation/reconciliation.go:279-298 | Every pass over an enclosed list makes it shorter. |
| `DestroyLoop.DoomedEnclosed` | anx/provider/loadbalancer/reconciliation/reconciliation.go:201-219 | What a check wants destroyed is enclosed, provided that no resource outside the working set refers into it. |
| `DestroyLoop.DoomedGone` | anx/provider/loadbalancer/reconciliation/reconciliation.go:268-308 | Destroying an enclosed list removes exactly it from the working set and leaves no stray. |
| `Reconciliation.Recon.CreatePhase` | anx/provider/loadbalancer/reconciliation/reconciliation.go:309-331 | Objects are created and tagged one after the other up to the first error, so at most the last is untagged; what each refers to exists when it is created; the gauge is left off by the objects never attempted. |
| `Reconciliation.Recon.CreateOne` | anx/provider/loadbalancer/reconciliation/reconciliation.go:313-330 | A success leaves exactly one new tagged resource; an error tells whether creating or tagging failed. |
| `Reconciliation.Recon.CreateRound` | anx/provider/loadbalancer/reconciliation/reconciliation.go:309-340 | A wait that ends with a failed object is left to the next check, one that times out ends the run. |
| `Progress.AllMissingFit` | anx/provider/loadbalancer/reconciliation/reconciliation.go:309-331 | No dangling creates: the parent of everything to be created exists and is of the right kind. |
| `Progress.MissingGrown` | anx/provider/loadbalancer/reconciliation/reconciliation.go:309-340 | Creating what is missing adds exactly that to the working set, once each if it was free of equal objects. |
| `Reconciliation.Recon.WaitForResources` | anx/provider/loadbalancer/reconciliation/reconciliation.go:411-467 | Nil means that every object was fetched at least once during the wait and was neither updating, pending nor failed when it was last fetched, also if later rounds skipped it; the wait fails exactly if an object could not be fetched or had failed; at most backoffSteps rounds of polling. |
| `Conditions.WaitByStates` | anx/provider/loadbalancer/reconciliation/reconciliation.go:411-467 | Told from the fields of the states: the wait fails exactly if a Get found nothing or something in Error that was not updating; it succeeds only if each object was found in the end not updating, not in Error and not Pending; it times out only if something was updating or Pending; and what was found OK and not updating is not fetched again. |
| `Reconciliation.Recon.Poll` | anx/provider/loadbalancer/reconciliation/reconciliation.go:411-467 | The polling loop, with the same contract; with a reliable Engine and ready objects it succeeds at once. |
| `Reconciliation.Recon.PollNext` | anx/provider/loadbalancer/reconciliation/reconciliation.go:427-450 | An object is fetched unless its state was fine and this is not the first round; what it then says of itself is what the Engine said. |
| `Reconciliation.Recon.PollOnce` | anx/provider/loadbalancer/reconciliation/reconciliation.go:424-465 | One round: an object counts as failed exactly if it could not be fetched or had failed, and as not ready exactly if it was updating or pending. |
| `Histories.OthersKeepEstate` | anx/provider/loadbalancer/reconciliation/multirecon.go:92-105 | As long as only others make calls, in whatever order, nothing of ours changes. |
| `Histories.OthersKeepReady` | anx/provider/loadbalancer/reconciliation/multirecon.go:92-105 | And what of ours is ready stays ready. |
| `Histories.OthersAreRelied` | anx/provider/loadbalancer/reconciliation/multirecon.go:92-105 | Any stretch of others' calls provides all that a reconciliation relies on between two calls of its own: its estate, new identifiers, kept kinds, readiness, and an Engine that is in order. |
| `Histories.OwnReplay` | anx/provider/loadbalancer/reconciliation/multirecon.go:92-105 | Whatever else happens in between, what becomes of a LoadBalancer's resources in a reliable Engine is what the calls of its own reconciliation make of them, one after the other. |
| `Histories.StaysReady` | anx/provider/loadbalancer/reconciliation/multirecon.go:92-105 | And what is ready stays so as long as it is there and is not reset. |
| `Interleaving.RoundAdvances` | anx/provider/loadbalancer/reconciliation/reconciliation.go:243-346 | A faithful round of a run, wherever its calls lie among others', that begins in health: its check finds no fault or cannot retrieve; then it has nothing to do, or its calls destroy exactly what is unwanted, or create exactly what is missing, the wait for it succeeds, and it ends in health. |
| `Interleaving.HealthyConverges` | anx/provider/loadbalancer/reconciliation/reconciliation.go:240-349 | So a run that begins in health and ends takes five rounds at most, destroys in the first only, and completes exactly if every retrieval succeeds: derived from what the calls do, not assumed. |
| `Interleaving.AllSettledTogether` | anx/provider/loadbalancer/reconciliation/multirecon.go:92-115 | Runs in one chain of calls, interleaved in any way: at the end of all calls every run that has completed has its intended topology, exactly if no Backend or Frontend is there twice, all of them at the same time. |
| `Interleaving.MachinesConverge` | anx/provider/loadbalancer/reconciliation/multirecon.go:92-115 | n runs that begin in health and end, interleaved in any way with each other and with all other calls: each takes five rounds at most; it completes, and has its intended topology at the end of all calls, if and only if nobody else destroys what it has listed last before it fetches it, and otherwise ends with that retrieval; if nobody destroys, all complete. |
| `Interleaving.CompletesAfterDestroying` | anx/provider/loadbalancer/reconciliation/multirecon.go:92-115 | A run that begins in health completes if all others that make calls while it lasts are such runs past their first round, since none of them destroys later. |
| `Interleaving.VanishedIffDestroyed` | anx/provider/loadbalancer/reconciliation/reconciliation.go:524-592 | In a reliable Engine a check cannot retrieve if and only if somebody else destroys a listed resource of a known type between the listing and the Get that asks for it. |
| `Interleaving.ListingIsShared` | anx/provider/loadbalancer/reconciliation/reconciliation.go:524-592 | The listing is by tag only: the Destroy of another reconciliation between listing and fetching makes our retrieval fail although nothing of ours has changed. |
| `Engines.Engine.Create` | anx/provider/loadbalancer/reconciliation/reconciliation.go:314-319 | A Create changes only the caller's resources, also when the answer gets lost. |
| `Engines.Engine.AddTag` | anx/provider/loadbalancer/reconciliation/reconciliation.go:371-389 | A tag changes only the caller's resource. |
| `Engines.Engine.Destroy` | anx/provider/loadbalancer/reconciliation/reconciliation.go:281-282 | A Destroy changes only the caller's resources and is refused while something refers to the resource. That one answered early is not carried out later is a hypothesis, see above. |
| `Engines.Engine.Update` | anx/provider/loadbalancer/reconciliation/reconciliation.go:229-233 | An Update changes no attribute and no tag. |
| `FanOut.SendersNeverBlock` | anx/provider/loadbalancer/reconciliation/multirecon.go:92-105 | No goroutine ever waits for room in the channel, none sends after it is closed, and the wait group never goes negative. |
| `FanOut.JoinIsRight` | anx/provider/loadbalancer/reconciliation/multirecon.go:65-115 | For every order of completion the caller returns without an error exactly if no reconciliation failed, and then with all their results. |
| `FanOut.HeldUpIff` | anx/provider/loadbalancer/reconciliation/multirecon.go:92-115 | Nothing but a wrapped reconciliation that does not return can hold a run up: before the caller has returned no other step is possible if and only if the caller waits, some reconciliation is still at work, and no other goroutine is about to exit. |
| `FanOut.RunIsShort` | anx/provider/loadbalancer/reconciliation/multirecon.go:92-115 | No run takes more than 4n + 4 steps. |
| `Reconciliation.Recon.Status` | anx/provider/loadbalancer/reconciliation/reconciliation.go:391-409 | It fails exactly as the retrieval does. Otherwise the status lists for each address the ports its Binds serve, in order and cut to 16 bits; on the intended topology these are exactly the external addresses with exactly the external ports, each once, if and only if no two ports share their number (or there is no address) and no Bind has a twin. |
| `Statuses.CollectHas` | anx/provider/loadbalancer/reconciliation/reconciliation.go:396-408 | An address is listed with a port exactly if a Bind serves the port there, and never with no port. |
| `Statuses.CollectPicked` | anx/provider/loadbalancer/reconciliation/reconciliation.go:391-409 | What is listed for an address are the ports of the Binds there, one by one, in their order, cut to 16 bits. |
| `Statuses.ExactStatus` | anx/provider/loadbalancer/reconciliation/reconciliation.go:391-409 | On the intended topology the status is the intended one if and only if no two ports share their number (or there is no address) and no two Binds on one Frontend serve the same port on the same address. |
| `Statuses.UniqueNoTwins` | anx/provider/loadbalancer/reconciliation/reconcile_binds.go:45-68 | With distinct addresses, an intended topology without equal objects has no such twins. |
| `Statuses.ExactPairs` | anx/provider/loadbalancer/reconciliation/reconciliation.go:391-409 | In any case it lists the external ports for the external addresses and nothing else, and a number that two ports share twice. |
| `MultiRecon.MergeReconStatus` | anx/provider/loadbalancer/reconciliation/multirecon.go:157-197 | An address is kept exactly if some port is counted once per status and none more often; its ports are those counted once per status. |
| `MultiRecon.MergeIntersectsIff` | anx/provider/loadbalancer/reconciliation/multirecon.go:157-197 | The result is the intersection if and only if the counting is distorted for no address: each port counted as often as there are statuses, or more, is listed by all and once by each, or no port is listed by all and some port is counted more often. Without duplicates it always is; and nothing is listed twice. |
| `MultiRecon.MergeIsOrderFree` | anx/provider/loadbalancer/reconciliation/multirecon.go:157-197 | The order of the statuses does not matter. |
| `MultiRecon.DuplicatesGetLost` | anx/provider/loadbalancer/reconciliation/multirecon.go:157-197 | A port that only the first status lists, and twice: alone it is lost with its address, beside one other status it is reported although the other lacks it, beside two or more the result is the intersection. |
| `MultiRecon.EndToEndStatus` | anx/provider/loadbalancer/reconciliation/multirecon.go:117-155 | Once every reconciliation has converged, the merged status has exactly the external addresses, each with exactly the external ports, if and only if no two ports share their number (or there is no address) and no Bind has a twin anywhere; otherwise some address is lost, and all of them if two ports share their number. |
| `SharedNumber.SameNumberIsLost` | anx/provider/loadbalancer/loadbalancer.go:121-159 | A service with one number under two names: there is an intended topology, the status of a single LoadBalancer that has reached it is merged to nothing, and created is false. |
| `ControlLoop.ConvergedServiceIsAtRest` | anx/provider/loadbalancer/loadbalancer.go:121-159 | Once all LoadBalancers have converged: the load balancer counts as created exactly if there is no address, or there are ports, their numbers differ and fit into 16 bits, and no Bind has a twin; and the next allocation gives the same addresses without asking for a prefix exactly if there is no address, or there are ports, their numbers differ, no Bind has a twin, and no hostname is written instead. With a hostname, or without ports that can be told apart, it begins anew. |
| `ControlLoop.WrittenStatus` | anx/provider/loadbalancer/loadbalancer.go:399-455 | The status written back for the intended merged status: each entry lists the port numbers of the service, cut to 16 bits, strictly increasing and without zero; one entry for each address, or a single one with the hostname and no address. |
| `ControlLoop.ReconciliationForService` | anx/provider/loadbalancer/loadbalancer.go:261-355 | When there is an error, also of listing the services or of fetching a LoadBalancer, and otherwise what each LoadBalancer is reconciled for; nothing at all for a service that is being deleted. |
| `ControlLoop.DeletedMeansGone` | anx/provider/loadbalancer/loadbalancer.go:316-320 | Reconciling a deleted service is finished exactly when nothing is left of it. |
| `ControlLoop.AllocatedIsExternal` | anx/provider/loadbalancer/loadbalancer.go:298-315 | The addresses allocated are the ones reconciled for, if none is unspecified. |
| `Services.Created` | anx/provider/loadbalancer/loadbalancer.go:136-159 | Created is true exactly if every address is in the status with every port of the service at its full width. |
| `Services.IntendedIsCreated` | anx/provider/loadbalancer/loadbalancer.go:136-159 | On the intended status that is so exactly if all port numbers fit into 16 bits and there is one, or if there is no address. |
| `Services.PortsOf` | anx/provider/loadbalancer/loadbalancer.go:266-283 | Two ports of the same name are an error; otherwise each is under its name, its external number congruent to the port and its internal number to the node port modulo 65536, and equal to them where they fit into 16 bits. |
| `Services.NumbersDistinctIff` | anx/provider/loadbalancer/loadbalancer.go:266-283 | The ports differ in number exactly if the numbers of the service still differ after they are cut to 16 bits; their names do not matter. |
| `Services.ExternalAddresses` | anx/provider/loadbalancer/loadbalancer.go:303-315 | The addresses that are not unspecified, in order; an error exactly if there is such an address and the services cannot be listed, or another service has one of them. |
| `Services.LbStatusFromReconcileStatus` | anx/provider/loadbalancer/loadbalancer.go:399-455 | The ports reported are strictly increasing and are all but zero of what any address serves; one entry for each address, or a single one with the hostname. |
| `Services.ServiceAddressFamilies` | anx/provider/loadbalancer/address/address.go:214-242 | Without the annotation the families of the specification; with it the one list of "IPv4" and "IPv6" that is the annotation when joined with commas; an error exactly if there is no such list. |
| `Services.FamiliesIff` | anx/provider/loadbalancer/address/address.go:214-242 | A list of families is the answer if and only if there is no annotation and it is the specification's, or it consists of "IPv4" and "IPv6" and makes up the annotation when joined with commas. |
| `Services.NoFamiliesIff` | anx/provider/loadbalancer/address/address.go:232-234 | There is no answer if and only if there is an annotation that no such list makes up. |
| `Text.SplitJoins` | anx/provider/loadbalancer/address/address.go:218 | Splitting at a separator and joining with it gives back the text, and no part contains the separator. |
| `Text.JoinSplits` | anx/provider/loadbalancer/address/address.go:218 | And the other way round: parts without the separator are found again. |
| `Services.ServiceAddresses` | anx/provider/loadbalancer/address/address.go:244-260 | The addresses of those entries of the status that have one, in order. |
| `Services.AllocateAddress` | anx/provider/loadbalancer/address/address.go:188-212 | The address of the first prefix of the family, that is of one with no other of the family before it; none exactly if there is no such prefix or they cannot be listed. |
| `Services.FirstOfIff` | anx/provider/loadbalancer/address/address.go:196-206 | An address is the answer if and only if a prefix of the family has it, and none before that is of the family. |
| `Services.AllocateAddresses` | anx/provider/loadbalancer/address/address.go:89-140 | The families' shares one after the other: for each family all addresses it has, in order, or else one from the first prefix of the family; an error exactly if the families are invalid or one of them has neither an address nor a prefix. |
| `Services.AllocationIs` | anx/provider/loadbalancer/address/address.go:89-140 | The same for the value all other results about allocation speak of. |
| `Services.AllocationIsStable` | anx/provider/loadbalancer/address/address.go:89-140 | Writing back a status with the allocated addresses makes the next allocation return the same set, whatever has become of the prefixes. |
| `Vip.CalculateVIP` | anx/provider/loadbalancer/address/ipcalc.go:14-31 | The bytes are overwritten in place with the address before the last of the network, whenever the prefix leaves a host bit. |
| `Vip.VipIsBeforeBroadcast` | anx/provider/loadbalancer/address/ipcalc.go:14-31 | The result is network + 2^(bits - prefix) - 2 if and only if the prefix leaves a host bit or the last byte is not zero. |
| `Vip.VipInNetwork` | anx/provider/loadbalancer/address/ipcalc.go:14-31 | It lies in the network if and only if the prefix leaves a host bit, and is then neither its first nor its last address if there are others. |
| `Vip.VipIdempotent` | anx/provider/loadbalancer/address/ipcalc.go:14-31 | Applied to its own result, which has overwritten the network's address, it gives the same address if and only if the prefix leaves a host bit. |
| `Vip.BroadcastValue` | anx/provider/loadbalancer/address/ipcalc.go:18-25 | The masks of the bytes together set exactly the host bits of the whole address. |
| `Vip.BitMaskForN` | anx/provider/loadbalancer/address/ipcalc.go:34-47 | The mask of the first n bits of a byte, for every n. |
| `SubjectLock.MutualExclusion` | anx/provider/sync/sync.go:21-39 | In no interleaving do two threads have the same subject locked at the same time. |
| `SubjectLock.MapMarksHeld` | anx/provider/sync/sync.go:21-39 | Whenever the mutex is free the map marks exactly the subjects that are held, or about to be given back. |
| `SubjectLock.OnlyTheSubjectBlocks` | anx/provider/sync/sync.go:21-33 | A thread goes to sleep only because another has locked the very same subject. |
| `SubjectLock.FreeSubjectIsLocked` | anx/provider/sync/sync.go:21-33 | With the mutex free and the subject not locked, four steps of its own lock it, whatever else is locked. |
| `SubjectLock.ThreeThreadsBreakIt` | anx/provider/sync/sync.go:35-39 | With any three threads there is a run, from the very beginning, in which a single Unlock by one that does not hold the subject lets the two others hold it. |
| `SubjectLock.IntruderHarmlessIff` | anx/provider/sync/sync.go:35-39 | Such an Unlock does no harm if and only if nobody has the subject locked; then it changes nothing. |

## Left out

- Reconciliation.Recon.Reconcile: watched for a bounded number of rounds and passes (`fuel`); the Go loops have no bound and may run for ever. Nothing that is stated depends on the bound except that a run may be reported as still running.
- Reconciliation.Recon.DestroyPhase: the same bound, for the passes.
- Reconciliation.Recon.WaitForResources: pauses, jitter and the cap of the backoff are abstracted to a free choice to give up after any round.
- Reconciliation.Recon.RetrieveState: paging and the fetching of full objects are one call each; contexts and cancellation are not modelled.
- Services.AllocateAddresses: the prefix cache and its timeout; a call sees one list of prefixes or cannot list them.
- Services.LbStatusFromReconcileStatus: the hostname is given in lower case.
- Services.Sort: says which numbers come out, not how often; duplicates are removed right after.
- Vip.CalculateVIP: the mask is given as its number of ones, and address and mask have the same length, as net.ParseCIDR yields them.
- Compare.Reconcile: compares all attributes of an object at once, which is what the four steps list; which of several equal existing objects gives its identifier is the first.
- publicAddresses and storePublicAddress: written and sorted, never read.
- Metrics other than the two gauges of pending operations, logging, and object_stringer.go.
- The Engine's own progress: that pending resources become ready in the end.
- Whether a wrapped reconciliation returns: the retry loop can keep one from it (`DestroyLoop.CheckedLoopEnds`), and then the caller waits (`FanOut.HeldUpIff`).
- Interleaving.MachinesConverge: about runs that have ended; that a healthy run does end, within the bound on the passes, is said by Reconciliation.Recon.Reconcile.
- Engines.Engine.Destroy: a resource whose Destroy was answered early stays until it is destroyed again.
- ControlLoop.ReconciliationForService: which LoadBalancers can be fetched is given, not fetched.
- Liveness of the subject lock: it spins and sleeps, and gives no guarantee.
- The mutexes around tagging and around EnsureLoadBalancer: every call is one step here.
- Prefix and virtual IP discovery over the API, node addresses, instances, configuration and metrics wiring.
- The text form of IP addresses: an address is its family and its canonical text.
