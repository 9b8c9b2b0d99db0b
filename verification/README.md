# A verified model of the Yandex.Cloud controller manager's reconcilers

The controller keeps three things in the cloud in line with a Kubernetes cluster: the network load
balancers of its services, the target groups that hold its nodes, and one route table. It does so with
remote calls that may fail before or after taking effect, so what matters is not one call but what every
interrupted, repeated and interleaved sequence of calls leaves behind. This project models that code and
proves such statements.

## How the model is built

- `Cloud` is the mutable cloud: balancers and target groups by id, the requests that change them, which
  requests the cloud takes (no two listeners of a balancer with one name or one protocol and port, no
  group attached twice, no target twice in a group or in two groups), and the object `CloudApi` through
  which each request may succeed, fail without effect or fail after its effect. The ghost counter `faults`
  says how often the environment chose a failure; "quiet" below means that it did not.
- `Claims` says what that rule for targets means for a sync of several groups, in any order.
- `BalancerPlan` says which requests one pass of balancer reconciliation sends as a function of the cloud
  it finds. Its central fact is `Resume`: after a request the next pass finds exactly the rest, unless
  that request attached something without an HTTP check, which a service never asks for.
  Convergence, the potential and validity of every intermediate state follow. `LoadBalancer` holds the
  imperative code, proved to carry out a prefix of that plan. `KeyedDiff` is the nested-loop comparison
  with its name-keyed found-set, in general form.
- `TargetGroups` and `TargetGroupService` do the same for target groups, where additions come first.
- `Grouping` is the computation nodes times interfaces, `GroupingLaws` what it conserves, `Wanted` the
  groups a set of nodes calls for and the cache argument, `Syncer` the object with `lastVisitedNodes`.
- `Services` has balancer names and listener specifications, `Controller` the ensure, update and delete
  calls with the end-to-end theorem and its form for runs (`Serve`, `ServeFromStart`: from any cloud and with
  any failures, every success serves its service exactly unless some call failed after changing groups and
  the names remembered have not changed since), `Runs` what holds over every run of such calls, cut short or
  not.
- `Routes`, `RouteLaws` and `RouteMap` treat the rewriting of the route table as a sequence function,
  `RouteProtocol` and `RouteService` the lock protocol as a state machine over its atomic steps, and
  `RouteApi` the three operations as methods between whose steps any other calls may run.

## What turned out to need a condition

- An update is stuck, however often it is repeated, exactly when a listener that stays bears the name of
  one still to be added (`BalancerPlan.StuckIffInfeasible`); swapping the names of two ports while one
  moves does that (`BalancerPlan.RenamedListenerBlocksForEver`), because matching ignores names.
- Two specifications under one name hide each other: a pass with nothing to do proves the balancer right
  if and only if names do not repeat, or there always is something to do
  (`BalancerPlan.NothingToDoIsRightIff`); that is the case if and only if some attachment asked for has no
  HTTP check (`BalancerPlan.QuietIffChecked`), which a service never asks for.
- If no target is wanted for two groups, a sync of several groups gets through in every order exactly if
  no wanted target is in another group (`Claims.EveryOrderTakenIff`), in some order exactly if no groups
  wait for each other or for a group outside the mapping (`Claims.SomeOrderTakenIff`), and otherwise never
  (`Claims.BlockedStays`). A node that loses its prefix (`Wanted.LostPrefixExample`) and nodes that swap
  prefixes (`Wanted.SwappedPrefixesBlock`) block their groups. That no wanted target is in another group is
  assumed where quiet calls are said to succeed, not where a success is said to be exact; it holds throughout
  a run whose nodes keep their names and prefixes (`Wanted.HomedIsUndisputed`, `Wanted.EvolvedStaysHomed`).
- A target update is exact if and only if no two targets in play share the text `subnet:address` without
  being equal (`TargetGroups.UpdateExactIffUnambiguous`), which colon-free subnet ids guarantee.
- The cache of visited nodes is sound while no call is cut short and a node name stands for one node.
  After a sync cut short (`Wanted.PartialSyncGoesStaleIff`, `Wanted.CutSyncGoesStaleIff`), a clean-up cut
  short (`Wanted.PartialCleanUpGoesStaleIff`) or a change under unchanged names
  (`Wanted.ChangedNodesUnnoticedIff`) the skipped call is right exactly as stated there, and after any
  mixture of these as `Wanted.SkippedIsRightIff` says. After a clean-up
  cut short the groups of the remembered nodes may be gone, and their services cannot be ensured until
  the set of nodes changes.
- A node prefix and a service prefix meet exactly if the prefix has at most 36 bytes
  (`GroupingLaws.SamePrefixMeetsIffShort`). The comment at
  pkg/cloudprovider/yandex/load_balancer_tg_controller.go:186 computes 63 - 26 - 21, which is 16; the
  code cuts at 36, and so does the model.
- The clean-up filter is containment, so it spares another cluster's groups exactly if no name that the
  other cluster's nodes call for contains this cluster's name (`Wanted.OtherClusterSparedIff`). Prefix,
  cluster and network can each contain it (`GroupingLaws.AnyPartPasses`): a node of cluster "prod" with the
  prefix "dev-" loses its group to a clean-up of cluster "dev" (`GroupingLaws.PrefixReachesOtherCluster`).
  All names of another cluster pass exactly if that cluster's name contains this one's
  (`GroupingLaws.OtherClustersPassIff`).
- Groups of two networks can get one name exactly if one of cluster name and network ends with the other
  (`GroupingLaws.NamesMeetIff`), which network ids of one length rule out.
- A clean-up breaks a balancer exactly if a group with the name of the cluster is attached to it
  (`Runs.CleanUpBreaksIffAttached`); that never happens to the controller's own balancers if those present
  belong to active services.
- Rewriting routes at once is the same as rewriting term by term exactly if each node's terms but for the
  last are removals (`RouteMap.BatchEqualsFoldIff`); repeating a rewrite changes a node's routes exactly as
  `RouteMap.RepeatStableIff` says.
- Two UIDs that differ in the last digit only give one balancer name (`Services.LastDigitIgnored`).

## Model

| member | source | states |
|---|---|---|
| Cloud.CloudApi.Call | pkg/yapi/api.go:39-56 | a request takes effect at most once; success means it did, NotFound means the cloud could not have taken it, and a quiet acceptable request succeeds |
| Cloud.CloudApi.ListBalancers | pkg/yapi/loadbalancer.go:339-347 | a page of at most two hits tells none, one and several apart, and NotFound is answered only if there is none |
| Cloud.CloudApi.ListGroups | pkg/yapi/loadbalancer.go:360-368 | the same for groups of a name |
| Cloud.CloudApi.ListAllGroups | pkg/yapi/loadbalancer.go:190-197 | the page holds every group if there are at most 1000, and only existing groups in any case |
| Cloud.EditKeepsValid | pkg/yapi/loadbalancer.go:101-175 | an accepted listener or attachment request never leaves two listeners with one name or slot nor a group attached twice |
| Cloud.PerformKeepsValid | pkg/yapi/loadbalancer.go:36-336 | every accepted request keeps the whole cloud valid |
| Cloud.PerformAllKeepsValid | pkg/yapi/loadbalancer.go:36-336 | so does every accepted sequence of requests, at every point |
| Cloud.PerformKeepsApart | README.md:114 | the cloud never takes a second target with the subnet and address of one it has: every accepted request of a valid cloud keeps each target in one group only |
| Cloud.Send | pkg/yapi/loadbalancer.go:102-119 | sending the next request of a plan leaves a longer or equal prefix of the plan performed, all of it counted even if the reply was lost |
| KeyedDiff.FoundByKey | pkg/yapi/loadbalancer.go:414-436 | for specifications with distinct names and keys, the name-keyed found-set decides by key equality |
| KeyedDiff.MissingByKey | pkg/yapi/loadbalancer.go:432-436 | what is to be added is exactly the specifications whose key no actual element has, in order |
| KeyedDiff.ResumeAfterRemove | pkg/yapi/loadbalancer.go:101-119 | after the first removal a fresh comparison finds the remaining removals and the same additions |
| KeyedDiff.ResumeAfterAdd | pkg/yapi/loadbalancer.go:120-137 | after the first addition a fresh comparison finds exactly the remaining additions |
| KeyedDiff.DoneIffSameKeys | pkg/yapi/loadbalancer.go:413-439 | the comparison finds nothing to do if and only if both sides have the same keys |
| KeyedDiff.MissingIsFresh | pkg/yapi/loadbalancer.go:120-137 | once removals are done, nothing to be added shares protocol and port with a listener that stays |
| KeyedDiff.WorkIsDistance | pkg/yapi/loadbalancer.go:413-478 | the number of removals and additions is the number of keys that only one side has |
| LoadBalancer.ListenersAreEqual | pkg/yapi/loadbalancer.go:441-452 | equality of protocol, port and target port and of nothing else |
| LoadBalancer.AttachedGroupsAreEqual | pkg/yapi/loadbalancer.go:480-517 | wherever the source does not crash: equal group id, both first health checks HTTP checks, and equal names, thresholds, ports, paths, interval and timeout seconds |
| LoadBalancer.DiffListeners | pkg/yapi/loadbalancer.go:413-439 | the nested loops yield the unmatched actual listeners and the specifications whose name was not found, both in order: to be removed is what has no specification of its protocol, port and target port, to be added, for distinct names and slots, what has no listener of these |
| LoadBalancer.DiffAttachedGroups | pkg/yapi/loadbalancer.go:454-478 | wherever the source does not crash: the attachments that match no expected one with an HTTP check, and the expected ones whose group was not found; one without an HTTP check never counts as found; both also said in the compared fields |
| LoadBalancer.KindFor | pkg/yapi/loadbalancer.go:37-43 | internal if and only if some listener is |
| LoadBalancer.GetLbByName | pkg/yapi/loadbalancer.go:338-357 | an answer names the only balancer of that name or says there is none; quiet ambiguity is an error |
| LoadBalancer.CreateLB | pkg/yapi/loadbalancer.go:67-74 | the creating step completes a pass, after a delete or without one, and its answer is the settled balancer's `Listeners[0]` |
| LoadBalancer.SendBoth | pkg/yapi/loadbalancer.go:101-137 | everything that takes away is sent before anything that adds, up to the first failure; not dirty means unchanged |
| LoadBalancer.UpdateListeners | pkg/yapi/loadbalancer.go:101-137 | the listener half of an update performs the first part of its plan |
| LoadBalancer.UpdateAttachments | pkg/yapi/loadbalancer.go:139-175 | the attachment half performs the rest |
| LoadBalancer.UpdateLB | pkg/yapi/loadbalancer.go:99-175 | removals, additions, detachments and attachments follow the plan and stop at the first failure; nothing is dirty only if nothing changed |
| LoadBalancer.UpdateAndLook | pkg/yapi/loadbalancer.go:99-186 | an update with its second look reports `Listeners[0]` of a settled balancer |
| LoadBalancer.CreateOrUpdateLB | pkg/yapi/loadbalancer.go:36-187 | a call performs a prefix of its plan, all of it on success; success settles the balancer: its kind is the one asked for, its listeners pair off with the specifications by protocol, port and target port, its attachments with those asked for by group and first health check, and the answer is its first listener; a quiet call fails only on an ambiguous name or a request the cloud refuses |
| LoadBalancer.RemoveLBByName | pkg/yapi/loadbalancer.go:208-236 | at most the one balancer of that name is deleted, success leaves none of that name, and a quiet unambiguous call succeeds |
| BalancerPlan.ResumeEdit | pkg/yapi/loadbalancer.go:99-175 | each edit of an update leaves exactly the rest of that update as the work of a new one, if and only if it is not an attachment without an HTTP check |
| BalancerPlan.Resume | pkg/yapi/loadbalancer.go:36-187 | the same for every pass, including between the delete and the create of a replacement: a fresh pass finds exactly the rest if and only if the request did not put an attachment without an HTTP check there |
| BalancerPlan.PlanPrefix | pkg/yapi/loadbalancer.go:36-187 | after any number of such requests of a pass the cloud is valid and the next pass does exactly the rest |
| BalancerPlan.InterruptedAttempts | pkg/yapi/loadbalancer.go:36-187 | for attachments with HTTP checks, any number of passes cut off anywhere together perform a prefix of the first pass |
| LoadBalancer.PassIsAttempt | pkg/yapi/loadbalancer.go:36-187 | calls that got as far as they got, one after the other, are the interrupted passes of which the following rows speak |
| BalancerPlan.NoWorkIffSettled | pkg/yapi/loadbalancer.go:99-186 | a pass sends nothing if and only if the balancer has the right kind, listeners and attachments pair off one to one with what is asked, and all attachments asked for have HTTP checks |
| BalancerPlan.QuietIffChecked | pkg/yapi/loadbalancer.go:480-517 | some balancer leaves a pass nothing to do if and only if every attachment asked for has an HTTP check; otherwise each pass attaches something again |
| BalancerPlan.UncheckedIsMissing | pkg/yapi/loadbalancer.go:454-517 | an attachment asked for without an HTTP check is attached again by every pass, whatever is there |
| BalancerPlan.CompletePass | pkg/yapi/loadbalancer.go:36-187 | whatever the health checks, a pass that completes settles the balancer |
| BalancerPlan.CompletedInFields | pkg/yapi/loadbalancer.go:36-187 | after a completed pass each specification pairs with one listener of its protocol, port and target port, each attachment asked for with one of its group, whose first health check agrees in name, thresholds, port, path, interval and timeout, and conversely |
| BalancerPlan.AttachmentsAgreeIff | pkg/yapi/loadbalancer.go:480-517 | attachments count as the same if and only if group and the compared fields of the first health check agree |
| BalancerPlan.Convergence | pkg/yapi/loadbalancer.go:36-187 | after any interrupted passes one that completes settles the balancer, for attachments with HTTP checks in the very state an undisturbed pass would have reached |
| BalancerPlan.FirstListener | pkg/yapi/loadbalancer.go:74-186 | `Listeners[0]` exists after a completed pass unless no listener was asked for |
| BalancerPlan.PlanIsDistance | pkg/yapi/loadbalancer.go:99-175 | for attachments with HTTP checks, a pass sends as many requests as there are unmatched listeners and attachments on both sides |
| BalancerPlan.EffectiveCallsAreDistance | pkg/yapi/loadbalancer.go:99-175 | then over all interrupted passes the requests that took effect equal the decrease of the distance, one each |
| BalancerPlan.NextAccepted | pkg/yapi/loadbalancer.go:101-175 | the cloud takes the next request of an update and stays free of name clashes if and only if it was free of them |
| BalancerPlan.PlanAccepted | pkg/yapi/loadbalancer.go:36-187 | the cloud takes every request of a pass, each where it is issued, if and only if no listener that stays bears the name of one to be added |
| BalancerPlan.MatchingNamesSuffice | pkg/yapi/loadbalancer.go:441-452 | no name is in the way if kept listeners bear the names of their specifications |
| BalancerPlan.StuckIffInfeasible | pkg/yapi/loadbalancer.go:36-187 | some number of passes settles the balancer if and only if no name is in the way |
| BalancerPlan.RenamedListenerBlocksForEver | pkg/yapi/loadbalancer.go:413-452 | a concrete balancer that no number of passes settles |
| BalancerPlan.NothingToDoIsRightIff | pkg/yapi/loadbalancer.go:413-439 | for specifications with distinct slots, a pass with nothing to do means a matching balancer, for every balancer the cloud may hold, if and only if no two specifications share a name or an attachment asked for has no HTTP check, so that there always is something to do; the API server rejects services whose port names repeat before they get here |
| BalancerPlan.RepeatedNameHidesPort | pkg/yapi/loadbalancer.go:422-436 | for attachments with HTTP checks, any two specifications of one name come with a valid balancer for which a pass has nothing to do although a port is unserved |
| KeyedDiff.HiddenByName | pkg/yapi/loadbalancer.go:422-436 | a missing element goes unnoticed when another expected element of its name is there |
| BalancerPlan.PassKeepsGroups | pkg/yapi/loadbalancer.go:36-187 | no prefix of a balancer pass changes a target group |
| TargetGroups.UidInjective | pkg/yapi/loadbalancer.go:392 | the text of a target determines it if subnet ids have no colon |
| TargetGroups.ColonsCollide | pkg/yapi/loadbalancer.go:392 | two different targets with one text |
| TargetGroups.Difference | pkg/yapi/loadbalancer.go:390-406 | one representative of each text that only one side has, whatever the order of the map |
| TargetGroups.DiffTargetGroupTargets | pkg/yapi/loadbalancer.go:389-411 | both halves of the comparison |
| TargetGroups.OnlyInIsDifference | pkg/yapi/loadbalancer.go:401-409 | without colons each half is the set difference |
| TargetGroups.NothingWantedIsDropped | pkg/yapi/loadbalancer.go:267-303 | at every point of an update each target present and wanted stays, nothing unasked appears, and no other group is touched |
| TargetGroups.AddedBeforeRemoved | pkg/yapi/loadbalancer.go:270-303 | when only the removal is left, or nothing, every wanted target is there |
| TargetGroups.UpdateAcceptable | pkg/yapi/loadbalancer.go:267-303 | the cloud takes both requests of an update, in that order, if and only if what is added is in no other group |
| TargetGroups.UpdateExactIffUnambiguous | pkg/yapi/loadbalancer.go:267-314 | a completed update leaves exactly the wanted targets if and only if no texts collide |
| TargetGroups.NoColonIsUnambiguous | pkg/yapi/loadbalancer.go:389-411 | colon-free subnet ids rule collisions out |
| TargetGroups.NothingToUpdate | pkg/yapi/loadbalancer.go:269-312 | a group that already holds exactly the wanted targets gets no request |
| TargetGroupService.GetTgByName | pkg/yapi/loadbalancer.go:359-378 | an answer names the only group of that name or says there is none |
| TargetGroupService.PassTouchesOneGroup | pkg/yapi/loadbalancer.go:238-315 | a pass, cut short or not, changes at most what is filed under its name, keeps ids and names, and leaves balancers alone |
| TargetGroupService.PassCompletes | pkg/yapi/loadbalancer.go:238-315 | a completed pass puts exactly the wanted targets under its name and does nothing if they were there |
| TargetGroupService.PassReaches | pkg/yapi/loadbalancer.go:238-315 | a pass cut short leaves its group untouched, as wanted, or with the additions but not yet the removals |
| TargetGroupService.GroupPlanAcceptedIff | pkg/yapi/loadbalancer.go:238-315 | the cloud takes every request of a pass if and only if no other group holds a wanted target and, for a new group, no target is listed twice |
| TargetGroupService.EffectNeedsClaim | pkg/yapi/loadbalancer.go:238-315 | nothing of a pass takes effect while another group holds a wanted target |
| TargetGroupService.SendUpdate | pkg/yapi/loadbalancer.go:267-303 | additions, then removals, stopping at the first failure |
| TargetGroupService.CreateOrUpdateTG | pkg/yapi/loadbalancer.go:238-315 | a call performs a prefix of its plan, all of it when it returns an id of a group of that name; quiet calls whose requests the cloud takes return one |
| TargetGroupService.GetTGsByClusterName | pkg/yapi/loadbalancer.go:189-206 | every listed group contains the cluster name, and with at most 1000 groups all that do are listed, once |
| TargetGroupService.RemoveTGByID | pkg/yapi/loadbalancer.go:317-336 | success, also by NotFound, means the group is gone |
| Grouping.FileInterfaces | pkg/cloudprovider/yandex/load_balancer_tg_controller.go:161-175 | the interfaces of an instance are filed after what is filed already, under their keys |
| Grouping.ConstructTgNameToTargetMap | pkg/cloudprovider/yandex/load_balancer_tg_controller.go:156-183 | the mapping files every interface's target under node prefix, cluster and network, in visiting order, and nothing else; it fails only on an unknown subnet, an unanswered lookup or an empty result |
| GroupingLaws.Conservation | pkg/cloudprovider/yandex/load_balancer_tg_controller.go:156-183 | all lists together are, as a multiset, one target per interface of every instance |
| GroupingLaws.NoTargetTwice | README.md:114 | within one mapping: if interfaces differ in subnet or address, no target is filed under two names nor twice under one; for the groups of the cloud see the next rows |
| Claims.OnlyWhatIsLacking | pkg/yapi/loadbalancer.go:269-285 | no wanted target is in another group if and only if none that its own group lacks is |
| Claims.SyncedApartIff | pkg/cloudprovider/yandex/load_balancer_tg_controller.go:139-151 | about maps: overriding groups by wanted ones leaves no target in two groups if and only if no group outside the mapping holds a wanted target |
| TargetGroupService.CloudIsApart | README.md:114 | the cloud's rule by name: no target is in two groups |
| TargetGroupService.CompletedSyncIsApart | pkg/cloudprovider/yandex/load_balancer_tg_controller.go:139-151 | a sync that completed proves that no target was wanted for two groups and no group outside the mapping held a wanted one; the cloud never lets another sync through |
| Claims.EveryOrderTakenIff | pkg/cloudprovider/yandex/load_balancer_tg_controller.go:144-149 | if no target is wanted for two groups, the cloud takes the updates of a sync in every order of the mapping if and only if no wanted target is in another group |
| Claims.SomeOrderTakenIff | pkg/cloudprovider/yandex/load_balancer_tg_controller.go:144-149 | then it takes them in some order if and only if no groups wait for each other or for a group outside the mapping to give up a target |
| Claims.OrderDecides | pkg/cloudprovider/yandex/load_balancer_tg_controller.go:144-149 | where one group gives up a target that another one wants, one order of the mapping goes through and the other does not |
| Claims.BlockedStays | pkg/cloudprovider/yandex/load_balancer_tg_controller.go:144-149 | no update that gets through, cut short or not, ends such waiting, so retries never do |
| Claims.LeftBehindBlocks | pkg/cloudprovider/yandex/load_balancer_tg_controller.go:139-151 | a wanted target in a group outside the mapping blocks the group it is wanted for |
| Claims.SwappedBlock | pkg/cloudprovider/yandex/load_balancer_tg_controller.go:144-149 | two groups that each want a target of the other block each other |
| GroupingLaws.PlaceAllMembers | pkg/cloudprovider/yandex/load_balancer_tg_controller.go:160-176 | a target is filed under a key exactly if an interface of an instance belongs there |
| GroupingLaws.GroupKeyInFull | pkg/cloudprovider/yandex/load_balancer_tg_controller.go:167-190 | the name of a group is at most the first 36 bytes of the annotated prefix, the cluster and the network |
| GroupingLaws.SamePrefixMeetsIffShort | pkg/cloudprovider/yandex/load_balancer_tg_controller.go:167-170 | node and service with one prefix name one group if and only if the prefix has at most 36 bytes |
| GroupingLaws.NamesMeetIff | pkg/cloudprovider/yandex/load_balancer.go:219 | some prefixes make the group names of two networks meet if and only if one of cluster name and network ends with the other |
| GroupingLaws.NameDeterminesParts | pkg/cloudprovider/yandex/load_balancer.go:219 | in particular, with network ids of one length a group name determines prefix and network |
| GroupingLaws.ContainsIff | pkg/yapi/loadbalancer.go:199-203 | containment is standing somewhere in the text |
| GroupingLaws.YandexIff | pkg/cloudprovider/yandex/load_balancer_tg_controller.go:122-125 | a node counts if and only if its provider id has "yandex" somewhere in it |
| GroupingLaws.NamesCanCollide | pkg/cloudprovider/yandex/load_balancer.go:219 | in particular two different pairs of prefix and network can share a name, whatever the cluster |
| GroupingLaws.KeysContainCluster | pkg/yapi/loadbalancer.go:199-203 | every name the grouping produces, cut or not, passes the clean-up filter |
| GroupingLaws.AnyPartPasses | pkg/yapi/loadbalancer.go:199-203 | a name passes the clean-up filter of a cluster if its prefix, its own cluster or its network contains that name |
| GroupingLaws.PrefixReachesOtherCluster | pkg/yapi/loadbalancer.go:199-203 | an input: of clusters "dev" and "prod" the clean-up of the one takes a group of the other |
| GroupingLaws.OtherClustersPassIff | pkg/yapi/loadbalancer.go:199-203 | all names that another cluster's grouping can produce pass if and only if that cluster's name contains this one's |
| Wanted.WantedMembers | pkg/cloudprovider/yandex/load_balancer_tg_controller.go:117-183 | a wanted group holds exactly the targets that some given node contributes to it |
| Wanted.WantedIff | pkg/cloudprovider/yandex/load_balancer_tg_controller.go:117-183 | a sync knows what it wants if and only if every node has a provider id, every Yandex node an instance with known subnets, and there is some interface |
| Wanted.OtherNodesDoNotMatter | pkg/cloudprovider/yandex/load_balancer_tg_controller.go:122-125 | a node with another provider id changes neither the instances found nor whether the sync can know, nor the wanted groups |
| Wanted.YandexNodesContribute | pkg/cloudprovider/yandex/load_balancer_tg_controller.go:122-175 | a node whose provider id names the provider anywhere contributes each of its interfaces |
| Wanted.WantedDependsOnSet | pkg/cloudprovider/yandex/load_balancer_tg_controller.go:117-183 | neither order nor repetition of the nodes matters to what is wanted |
| Wanted.CachedStepAgrees | pkg/cloudprovider/yandex/load_balancer_tg_controller.go:106-154 | one undisturbed call does to the groups what a syncer without a cache does, and keeps the cache right |
| Wanted.CacheRefinement | pkg/cloudprovider/yandex/load_balancer_tg_controller.go:38-154 | over every sequence of undisturbed sync and clean-up calls the groups are those of a syncer without a cache |
| Wanted.SkippedIsRightIff | pkg/cloudprovider/yandex/load_balancer_tg_controller.go:112-115 | whatever calls, cut short or not, did to the groups and whatever became of the nodes: a call under the remembered names is skipped, rightly if and only if each group its nodes call for is there as called for |
| Wanted.OtherClusterSparedIff | pkg/yapi/loadbalancer.go:189-206 | a clean-up leaves the groups that given nodes of another cluster call for in place if and only if none of their names contains this cluster's |
| Wanted.PartialSyncGoesStaleIff | pkg/cloudprovider/yandex/load_balancer_tg_controller.go:106-154 | whatever failing calls made of some groups since nodes a were synced, a return to a is skipped, rightly if and only if each of these groups that a calls for holds what a calls for |
| Wanted.CutSyncGoesStaleIff | pkg/cloudprovider/yandex/load_balancer_tg_controller.go:144-151 | for a sync of nodes b cut short anywhere: rightly if and only if each group it finished is the same for a and b and the one it had only added to got nothing new |
| Wanted.PartialCleanUpGoesStaleIff | pkg/cloudprovider/yandex/load_balancer_tg_controller.go:78-99 | for a clean-up cut short before it empties the cache: rightly if and only if no group gone is one that a calls for, and the clean-up may take any of those |
| Wanted.ChangedNodesUnnoticedIff | pkg/cloudprovider/yandex/load_balancer_tg_controller.go:112-115 | nodes that changed under unchanged names, by a new prefix or a new address for instance, are not noticed, which is right if and only if they call for nothing new |
| Wanted.LostPrefixBlocks | pkg/cloudprovider/yandex/load_balancer_tg_controller.go:165-171 | a node that was synced under one name and is now called for under another, the first one being called for no more: the cloud never takes its target |
| Wanted.LostPrefixExample | pkg/cloudprovider/yandex/load_balancer_tg_controller.go:165-171 | an input: a node loses its prefix while another node joins |
| Wanted.SwappedPrefixesBlock | pkg/cloudprovider/yandex/load_balancer_tg_controller.go:165-171 | two groups that exchange targets, as when nodes swap prefixes, wait for each other for ever |
| Wanted.HomedIsUndisputed | pkg/cloudprovider/yandex/load_balancer_tg_controller.go:139-151 | nodes of one registry never want a target that another group holds, if none of its targets is in a group not its own |
| Wanted.EvolvedStaysHomed | pkg/cloudprovider/yandex/load_balancer_tg_controller.go:38-154 | which every call for nodes of the registry keeps, cut short or not |
| Syncer.NodeTargetGroupSyncer.constructor | pkg/cloudprovider/yandex/cloud.go:177-181 | a new syncer remembers no nodes |
| Syncer.NodeTargetGroupSyncer.FindInstances | pkg/cloudprovider/yandex/load_balancer_tg_controller.go:117-137 | the instances of exactly the nodes with "yandex" in their provider id, in node order; an empty provider id or a missing instance fails |
| Syncer.NodeTargetGroupSyncer.FindMapping | pkg/cloudprovider/yandex/load_balancer_tg_controller.go:117-142 | success is the mapping of what the nodes call for; a quiet call for nodes that call for something succeeds |
| Syncer.NodeTargetGroupSyncer.SyncGroup | pkg/cloudprovider/yandex/load_balancer_tg_controller.go:145-148 | one group is in line afterwards, the rest as before, and what took effect is lawful even if it failed; it fails without effect while another group holds a target, and quiet calls succeed otherwise |
| Syncer.NodeTargetGroupSyncer.ApplyMapping | pkg/cloudprovider/yandex/load_balancer_tg_controller.go:144-149 | for every iteration order success yields the old groups overridden by the mapping, with ids kept; quiet calls succeed if no wanted target is in another group; groups that wait for each other make it fail and stay waiting |
| Syncer.NodeTargetGroupSyncer.SynchronizeNodesWithTargetGroups | pkg/cloudprovider/yandex/load_balancer_tg_controller.go:106-154 | skipped for no nodes or remembered names; otherwise success yields the old groups overridden by the wanted ones; quiet calls for undisputed targets do exactly the cached step; failure keeps the remembered names and leaves the groups of a sync cut short; blocked groups stay blocked |
| Syncer.NodeTargetGroupSyncer.DeleteGroups | pkg/cloudprovider/yandex/load_balancer_tg_controller.go:84-94 | in any order of the deletions only listed groups go, and success means all of them went |
| Syncer.NodeTargetGroupSyncer.DeleteClusterGroups | pkg/cloudprovider/yandex/load_balancer_tg_controller.go:79-94 | groups without the cluster name are untouched; success with at most 1000 groups leaves none with it |
| Syncer.NodeTargetGroupSyncer.CleanUpTargetGroups | pkg/cloudprovider/yandex/load_balancer_tg_controller.go:78-99 | the same; success empties the remembered names and leaves no group that a sync of any node could produce; a clean-up cut short keeps the names and has removed only groups of the cluster |
| Syncer.NodeTargetGroupSyncer.SyncTGs | pkg/cloudprovider/yandex/load_balancer_tg_controller.go:38-66 | without nodes and without a load balancer service that is not being deleted it cleans up: success leaves no remembered name and, with at most 1000 groups, no group of the cluster; without nodes but with such a service nothing changes; otherwise it syncs; quiet calls for undisputed targets do exactly the cached step of the function model; what is remembered afterwards follows from the call |
| Syncer.AnyActive | pkg/cloudprovider/yandex/load_balancer_tg_controller.go:47-53 | true exactly if some service is a load balancer service that is not being deleted |
| Syncer.DeletedView | pkg/cloudprovider/yandex/load_balancer_tg_controller.go:78-99 | what is left by name once groups of the cluster are gone |
| Syncer.ProgressStep | pkg/cloudprovider/yandex/load_balancer_tg_controller.go:144-149 | whichever group comes next, the groups handled are in line and the others as they were |
| Services.NameOfUuid | pkg/cloudprovider/yandex/load_balancer.go:104-111 | the name of a canonical UUID is an `a` and its first 31 digits |
| Services.NamesAgreeIffDigitsAgree | pkg/cloudprovider/yandex/load_balancer.go:104-111 | two services share a name if and only if their first 31 digits agree |
| Services.LastDigitIgnored | pkg/cloudprovider/yandex/load_balancer.go:107-109 | UIDs that differ in the last digit only share a name |
| Services.ListenerSpecs | pkg/cloudprovider/yandex/load_balancer.go:130-171 | one specification per port, in order, with its port, its node port as target port, TCP or UDP as the port says, and its name or `listener-` and its index |
| Services.ValidPortsGiveValidListeners | pkg/cloudprovider/yandex/load_balancer.go:130-171 | valid service ports give specifications with distinct names and slots |
| Controller.ContributesIffReaches | pkg/cloudprovider/yandex/load_balancer.go:219 | a node contributes to the service's group exactly if it has the prefix and an interface in the network |
| Controller.GroupHoldsReachable | pkg/cloudprovider/yandex/load_balancer.go:219-227 | a group in line with the nodes holds exactly the reachable targets |
| Controller.ServedExactly | pkg/cloudprovider/yandex/load_balancer.go:113-240 | a settled balancer on such a group serves exactly the reachable targets through one attachment |
| Controller.ServedIsPublished | pkg/cloudprovider/yandex/load_balancer.go:113-240 | a served service has one balancer with one listener per port, forwarding port to node port over the port's protocol, internal as the service says, and attached only to the group named by prefix, cluster and network, with the service's health check |
| Controller.CloudProvider.constructor | pkg/cloudprovider/yandex/cloud.go:177-181 | a new controller remembers no nodes and nothing cut short |
| Controller.CloudProvider.EnsureLB | pkg/cloudprovider/yandex/load_balancer.go:113-240 | success settles the balancer on the group of the service's name: in plain fields its listeners forward exactly the service's ports to their node ports, it is internal as asked, its one attachment has the service's health check, and the answer is its first listener; more than 10 ports or no nodes fail; a quiet call succeeds if nothing stands in the way; groups are untouched and what took effect is lawful |
| Controller.CloudProvider.EnsureLoadBalancer | pkg/cloudprovider/yandex/load_balancer.go:72-79 | end to end: after success the balancer forwards exactly the ports and the balancer is attached to one group whose targets are exactly the given Yandex nodes' interfaces in the network with the prefix, also if the sync was rightly skipped; quiet calls for served nodes succeed if no other group holds their targets; a skipped sync that leaves the group missing makes it fail without effect, every time; what the controller remembers afterwards follows from the call and is trusted as before unless the call failed after changing groups, so that calls can be chained |
| Controller.CloudProvider.UpdateLoadBalancer | pkg/cloudprovider/yandex/load_balancer.go:82-90 | the same guarantees as for ensuring, without the address |
| Controller.CloudProvider.EnsureLoadBalancerDeleted | pkg/cloudprovider/yandex/load_balancer.go:93-102 | success leaves no balancer of the name; if the lister holds a load balancer service that is not being deleted, the groups are untouched; if it holds none, success leaves no remembered name and, with at most 1000 groups, no group with the cluster name; groups are deleted only once the service's own balancer is gone; what is remembered is trusted as before unless the call failed after changing groups |
| Controller.RecalledStays | pkg/cloudprovider/yandex/load_balancer_tg_controller.go:112-151 | what is remembered stays right over a call that succeeds or leaves the groups alone, and is right again once the names remembered change |
| Controller.SteadyStays | pkg/cloudprovider/yandex/load_balancer.go:72-102 | over every quiet call for nodes of a registry the remembered nodes stay in line and no target of theirs gets into a group not its own |
| Controller.ServeOne | pkg/cloudprovider/yandex/load_balancer.go:72-102 | a success serves the service exactly from its nodes, also if the sync was skipped, or leaves no balancer if it was a delete, provided the names remembered change in the call or what is remembered was right; it stays right unless a call fails after changing groups; a quiet call with nothing in its way but its own service succeeds |
| Controller.Serve | pkg/cloudprovider/yandex/load_balancer.go:72-102 | over every sequence of ensure, update and delete calls for nodes of one registry, from any cloud and with any failures: each success is exact unless some call failed after changing groups and the names remembered have been the same since; and on a quiet run whose targets have one group each, each call succeeds unless its own service is in its way |
| Controller.ServeFromStart | pkg/cloudprovider/yandex/cloud.go:165-190 | the same from the creation of the controller on, whatever cloud it finds |
| Controller.HarmlessIsReliable | pkg/cloudprovider/yandex/load_balancer.go:72-102 | in particular each success after calls that all succeeded or left the groups as they were is exact |
| Runs.BalancerPassIsLawful | pkg/yapi/loadbalancer.go:36-187 | every prefix of a balancer pass touches its own balancer only, creates only if the name is free and attaches only existing groups |
| Runs.GroupPassIsLawful | pkg/yapi/loadbalancer.go:238-315 | every prefix of a group pass creates only if the name is free and deletes nothing |
| Runs.StepKeepsNamesUnique | pkg/yapi/loadbalancer.go:64-95 | a lawful request never gives a name to two balancers or two groups |
| Runs.StepIsolates | pkg/cloudprovider/yandex/load_balancer.go:93-111 | a lawful request leaves balancers of other names as they were |
| Runs.ServiceIsolation | pkg/cloudprovider/yandex/load_balancer.go:72-102 | over every run names stay unique, and balancers whose name no call is for stay as they were |
| Runs.CleanUpBreaksIffAttached | pkg/cloudprovider/yandex/load_balancer_tg_controller.go:78-99 | a clean-up leaves an attachment dangling if and only if a balancer is attached to a group with the name of the cluster |
| Runs.StepKeepsIntegrity | pkg/cloudprovider/yandex/load_balancer_tg_controller.go:56-58 | a lawful request keeps existing every group attached to an owned balancer, a deletion if the owned balancers present belong to active services |
| Runs.CutPhase | pkg/cloudprovider/yandex/load_balancer.go:72-102 | a call cut off anywhere is again a phase of a run, so run-wide results hold at every point |
| Runs.SyncIsHonest | pkg/cloudprovider/yandex/load_balancer_tg_controller.go:38-99 | a sync that starts with every owned balancer belonging to an active service never deletes a group otherwise |
| Runs.ReferentialIntegrity | pkg/cloudprovider/yandex/load_balancer_tg_controller.go:38-99 | for every set of owned balancer names: over every run in which owned balancers present at a clean-up belong to active services, every group attached to an owned balancer exists at every point, whatever else the folder holds |
| Routes.ReplaceOne | pkg/cloudprovider/yandex/routes.go:175-204 | the first term for the node keeps, replaces or drops the route |
| Routes.FilterStaticRoutes | pkg/cloudprovider/yandex/routes.go:161-220 | the loops compute the in-order image followed by the missing additions in term order |
| RouteLaws.NodeByNode | pkg/cloudprovider/yandex/routes.go:161-220 | what becomes of the routes of each node for arbitrary terms, repeated names included; labels survive a replacement |
| RouteLaws.BystandersKept | pkg/cloudprovider/yandex/routes.go:170-204 | unlabelled routes and routes of nodes not named keep content and order |
| RouteLaws.PositionsKept | pkg/cloudprovider/yandex/routes.go:164-204 | without removals every route keeps its position |
| RouteMap.BatchEqualsFoldIff | pkg/cloudprovider/yandex/routes.go:161-220 | one rewrite with all terms equals rewriting term by term on every table if and only if each node's terms but for the last are removals |
| RouteMap.BatchEqualsFold | pkg/cloudprovider/yandex/routes.go:161-220 | in particular for terms with distinct node names |
| RouteMap.RepeatedAdditionsPileUp | pkg/cloudprovider/yandex/routes.go:206-217 | two additions for a node without a route leave two routes at once, one route one after the other |
| RouteMap.RepeatStableIff | pkg/cloudprovider/yandex/routes.go:161-220 | applying any terms again keeps a node's routes if and only if it had routes or its additions agree |
| RouteMap.Idempotent | pkg/cloudprovider/yandex/routes.go:161-220 | for distinct names rewriting again changes nothing, order included |
| RouteMap.RemovalLeavesBystanders | pkg/cloudprovider/yandex/routes.go:194-198 | a removal drops the node's routes and keeps the rest in order |
| RouteMap.RemovalUndoes | pkg/cloudprovider/yandex/routes.go:161-220 | removing after adding is removing, the identity if the node had no route |
| RouteMap.AdditionInFields | pkg/cloudprovider/yandex/routes.go:161-220 | an addition gives the node's routes the new destination and next hop in their places and with their labels, or else appends one route with the node-role label; all other routes stay |
| RouteMap.RemovalInFields | pkg/cloudprovider/yandex/routes.go:161-220 | a removal drops exactly the routes whose node-role label is the node |
| RouteMap.AdditionCounts | pkg/cloudprovider/yandex/routes.go:182-217 | an addition leaves the larger of one and the old number of routes, all with the new destination and next hop |
| RouteMap.RewriteRefinesMap | pkg/cloudprovider/yandex/routes.go:161-220 | a term acts on the table as on the map from nodes to routes and keeps at most one route a node |
| RouteMap.FoldRefinesMap | pkg/cloudprovider/yandex/routes.go:161-220 | so does any sequence of terms |
| RouteMap.NodeRoutes | pkg/cloudprovider/yandex/routes.go:44-62 | the listing loop yields one entry per labelled route in order |
| RouteMap.ListingDistinctIff | pkg/cloudprovider/yandex/routes.go:44-62 | a listing names no node twice if and only if no node has two routes |
| RouteMap.ListingIsMap | pkg/cloudprovider/yandex/routes.go:44-62 | with one route a node the listing is exactly the map |
| RouteProtocol.FindNextHop | pkg/cloudprovider/yandex/routes.go:85-94 | the address of the first internal address, empty if there is none |
| RouteProtocol.LockKept | pkg/cloudprovider/yandex/routes.go:23-33 | every step keeps exactly the holder between locking and unlocking |
| RouteProtocol.SnapshotKept | pkg/cloudprovider/yandex/routes.go:68-111 | what a call has read is still the table until it writes |
| RouteProtocol.TableKept | pkg/cloudprovider/yandex/routes.go:96-111 | overwriting the whole table appends exactly one term to the fold |
| RouteProtocol.OrderKept | pkg/cloudprovider/yandex/routes.go:68-111 | updates take effect in the order in which their calls got the lock |
| RouteProtocol.RunKeepsInv | pkg/cloudprovider/yandex/routes.go:24-145 | the invariant holds in every state of every interleaving |
| RouteService.NoLostUpdates | pkg/cloudprovider/yandex/routes.go:24-145 | in every interleaving the table is the fold, in lock order, of the updates that took effect; success means once, busy never, and nothing unasked takes effect |
| RouteService.TableRefinesMap | pkg/cloudprovider/yandex/routes.go:24-145 | the table never has two routes a node, acts as the map, and every listing is the map at a moment of its call |
| RouteService.QuietRunsReport | pkg/cloudprovider/yandex/routes.go:111-144 | if no reply is lost after its effect, exactly the calls that report success took effect |
| RouteService.LockCanBeReleased | pkg/cloudprovider/yandex/routes.go:68-72 | from every reachable state the holder can reach its unlock alone in at most four steps |
| RouteService.CreateAloneSucceeds | pkg/cloudprovider/yandex/routes.go:65-113 | a creation alone that finds the lock free succeeds and rewrites the table with its one term |
| RouteService.DeleteAloneSucceeds | pkg/cloudprovider/yandex/routes.go:115-145 | so does a deletion |
| RouteService.ListAloneSucceeds | pkg/cloudprovider/yandex/routes.go:26-63 | and a listing, which shows the table as it is |
| RouteService.StaleWriteLoses | pkg/cloudprovider/yandex/routes.go:23 | what a write from a stale reading, as without the lock, undoes |
| RouteApi.RouteTable.Others | pkg/cloudprovider/yandex/routes.go:23-33 | no steps of other calls change the table or the lock under its holder |
| RouteApi.RouteTable.UpdateRouteTable | pkg/cloudprovider/yandex/routes.go:103-112 | overwriting with what was made of the earlier reading is the protocol's update step |
| RouteApi.RouteTable.CreateRoute | pkg/cloudprovider/yandex/routes.go:65-113 | amid any other calls, success means a term took effect exactly once, and whatever took effect is the addition for this node and destination with the address of the first internal address, which is not empty; without an internal address nothing takes effect and the call fails; the table is the fold |
| RouteApi.RouteTable.DeleteRoute | pkg/cloudprovider/yandex/routes.go:115-145 | the same for the removal of this node |
| RouteApi.RouteTable.ListRoutes | pkg/cloudprovider/yandex/routes.go:26-63 | the result is the listing of a table between call and return, and nothing takes effect |

## Left out

- Cloud.CloudApi.Call: an operation that takes effect only after its caller gave up is not modelled (for routes it would be a stale write as in `RouteService.StaleWriteLoses`).
- A comparison of attachments that makes the source crash, on an expected attachment without a health check or without the HTTP options it reads; updates are modelled for all others.
- gRPC clients, SDK construction, credentials and the inside of the operation waiter: each remote call is one step with one of three fates.
- Editors of the cloud other than the controller, and several controllers at once.
- Metadata service, environment configuration, node addresses, instance lookup, zones: instances, subnets' networks, the addresses of a route's node and the cluster name are parameters that do not change.
- Annotation parsing with its error paths and health check defaulting: a service carries its parameters and its one HTTP health check.
- Listener address, subnet and IP version, which updates never compare; a pass returns the first listener instead of its address text, and an empty listener list, where the source would crash, is the outcome `NoListener`.
- Missing primary addresses of interfaces and other nil references.
- The sorted order in which targets are put into a request; requests are compared by their sets.
- Paging and filter syntax, except that clean-up sees at most 1000 groups, whichever they are.
- A balancer or group listing answers NotFound only if nothing has that name.
- Concurrent service calls: ensure, update and delete are processed one at a time, deletions of a clean-up in any order one after the other.
- GetLoadBalancer, informers, leader election, logging, manifests.
- Ids are numbers that the cloud never reuses; strings are sequences of bytes.
- Term types of the route filter other than the two constants.
