/** The node target group syncer (pkg/cloudprovider/yandex/load_balancer_tg_controller.go). */
module Syncer {
  import opened Seqs
  import opened Cloud
  import opened Claims
  import opened TargetGroups
  import opened TargetGroupService
  import opened Grouping
  import opened GroupingLaws
  import opened Wanted
  import opened Services
  import opened Runs

  /** Subnet ids are opaque words without a colon. */
  ghost predicate PlainFacts(facts: Facts) {
    forall s :: s in facts.networks ==> NoColon(s)
  }

  ghost predicate Tidy(c: CloudState) {
    ValidCloud(c) && UniqueGroups(c) && PlainSubnets(c)
  }

  /** A stretch of a call: the requests that took effect, all lawful, leaving the groups tidy. */
  ghost predicate Stretch(c: CloudState, done: seq<Request>, after: CloudState, sc: Scope) {
    && Performed(c, done, after) && LawfulRun(c, done, sc) && GroupRequests(done)
    && Tidy(after) && after.balancers == c.balancers
  }

  lemma StretchAppend(c: CloudState, done: seq<Request>, mid: CloudState, more: seq<Request>, after: CloudState,
                      sc: Scope)
    requires Stretch(c, done, mid, sc) && Stretch(mid, more, after, sc)
    ensures Stretch(c, done + more, after, sc)
  {
    PerformedAppend(c, done, mid, more, after);
    LawfulAppend(c, done, mid, more, sc);
  }

  lemma AllResolved(facts: Facts, nodes: seq<Node>)
    requires forall n :: n in nodes ==> n.providerId != "" && (IsYandex(n) ==> n.name in facts.instances)
    requires forall p :: p in Paired(facts, nodes) ==> KnownSubnets(facts, p)
    ensures Resolvable(facts, nodes)
  {
    forall n | n in nodes && IsYandex(n) ensures KnownSubnets(facts, InstanceWithNode(facts.instances[n.name], n)) {
      PairedMembers(facts, nodes, InstanceWithNode(facts.instances[n.name], n));
    }
  }

  lemma MappingIsWanted(facts: Facts, nodes: seq<Node>, mapping: map<string, seq<Target>>)
    requires forall n :: n in nodes ==> n.providerId != "" && (IsYandex(n) ==> n.name in facts.instances)
    requires forall p :: p in Paired(facts, nodes) ==> KnownSubnets(facts, p)
    requires Files(mapping, PlaceAll(facts, Paired(facts, nodes))) && PlaceAll(facts, Paired(facts, nodes)) != []
    ensures Resolvable(facts, nodes) && Files(mapping, Placements(facts, nodes))
    ensures WantedGroups(facts, nodes) == Some(map k | k in mapping :: Targets(mapping[k]))
  {
    AllResolved(facts, nodes);
    var placed := Placements(facts, nodes);
    assert Files(mapping, placed) && placed != [];
    hide Paired, PlaceAll, Resolvable, TargetsFor, Placements;
    assert KeysOf(placed) == mapping.Keys;
    assert WantedGroups(facts, nodes).value == map k | k in mapping :: Targets(mapping[k]);
  }

  lemma PairedInFields(facts: Facts, nodes: seq<Node>)
    requires forall n :: n in nodes && IsYandex(n) ==> n.name in facts.instances
    ensures forall p :: p in Paired(facts, nodes) <==>
      && p.node in nodes && NamesYandex(p.node.providerId)
      && p.node.name in facts.instances && p.instance == facts.instances[p.node.name]
  {
    hide NamesYandex, IsYandex;
    forall p
      ensures p in Paired(facts, nodes) <==>
        && p.node in nodes && NamesYandex(p.node.providerId)
        && p.node.name in facts.instances && p.instance == facts.instances[p.node.name]
    {
      PairedMembers(facts, nodes, p);
      YandexIff(p.node);
    }
  }

  lemma MappingIsPlain(facts: Facts, nodes: seq<Node>, mapping: map<string, seq<Target>>)
    requires PlainFacts(facts) && Resolvable(facts, nodes) && Files(mapping, Placements(facts, nodes))
    ensures forall k, t :: k in mapping && t in mapping[k] ==> NoColon(t.subnetId)
  {
    forall k, t | k in mapping && t in mapping[k] ensures NoColon(t.subnetId) {
      var p := TargetComesFrom(Placements(facts, nodes), k, t);
      PlacementsMembers(facts, nodes, p);
    }
  }

  /** No two interfaces of the nodes share subnet and address. */
  ghost predicate UniqueTargets(facts: Facts, nodes: seq<Node>) {
    Resolvable(facts, nodes) ==> Distinct(InterfaceTargets(Paired(facts, nodes)))
  }

  /** What later calls depend on: the groups, the nodes remembered, whether no call was cut short since
      they were synced, and the failures of the environment so far. */
  datatype Memory = Memory(view: View, lastNodes: seq<Node>, settled: bool, faults: nat)

  /** Nothing but the call itself was in its way: the environment made no call fail, no two interfaces
      share a target, and no wanted target is in another group. */
  ghost predicate Quiet(facts: Facts, nodes: seq<Node>, before: Memory, after: Memory) {
    after.faults == before.faults && UniqueTargets(facts, nodes) && Undisputed(facts, nodes, before.view)
  }

  /** What every call for these nodes keeps: the nodes remembered are these or the ones before, the
      groups evolved as by such a call, and a quiet call does not unsettle. */
  ghost predicate Orderly(facts: Facts, nodes: seq<Node>, before: Memory, after: Memory) {
    && (after.lastNodes == nodes || after.lastNodes == before.lastNodes)
    && Evolved(facts, nodes, before.view, after.view)
    && after.faults >= before.faults
    && (Quiet(facts, nodes, before, after) && before.settled ==> after.settled)
  }

  /** Only a call that fails after changing groups unsettles, whatever else was in its way, and one that
      changes the names remembered settles. */
  ghost predicate StaysSettled(before: Memory, after: Memory, ok: bool) {
    && (before.settled && (ok || after.view == before.view) ==> after.settled)
    && (NodeNames(after.lastNodes) != NodeNames(before.lastNodes) ==> after.settled)
  }

  lemma SettledAfterwards(before: Memory, mid: Memory, faults: nat, ok: bool)
    requires StaysSettled(before, mid, true)
    ensures StaysSettled(before, mid.(faults := faults), ok)
  {
  }

  /** Failures of other calls afterwards do not matter. */
  lemma OrderlyAfterwards(facts: Facts, nodes: seq<Node>, before: Memory, mid: Memory, faults: nat)
    requires Orderly(facts, nodes, before, mid) && faults >= mid.faults
    ensures Orderly(facts, nodes, before, mid.(faults := faults))
    ensures Quiet(facts, nodes, before, mid.(faults := faults)) ==> Quiet(facts, nodes, before, mid)
  {
    hide UniqueTargets, Undisputed, Evolved;
  }

  lemma OrderlySince(facts: Facts, nodes: seq<Node>, before: Memory, faults: nat, after: Memory)
    requires faults >= before.faults && Orderly(facts, nodes, before.(faults := faults), after)
    ensures Orderly(facts, nodes, before, after)
    ensures Quiet(facts, nodes, before, after) ==> Quiet(facts, nodes, before.(faults := faults), after)
  {
    hide UniqueTargets, Undisputed, Evolved;
  }

  lemma NothingIsOrderly(facts: Facts, nodes: seq<Node>, before: Memory, faults: nat)
    requires faults >= before.faults
    ensures Orderly(facts, nodes, before, before.(faults := faults))
  {
    hide UniqueTargets, Undisputed, CutSync, CutCleanUp, WantedGroups;
  }

  lemma SyncIsOrderly(facts: Facts, nodes: seq<Node>, before: Memory, after: Memory, ok: bool)
    requires WantedGroups(facts, nodes).Some? && CutSync(before.view, WantedGroups(facts, nodes).value, after.view)
    requires after.faults >= before.faults && (Quiet(facts, nodes, before, after) ==> ok)
    requires if ok then after.lastNodes == nodes && after.settled else after.lastNodes == before.lastNodes
    ensures Orderly(facts, nodes, before, after)
  {
    hide UniqueTargets, Undisputed, CutSync, CutCleanUp, WantedGroups;
  }

  lemma CleanUpIsOrderly(facts: Facts, before: Memory, after: Memory, ok: bool)
    requires CutCleanUp(before.view, after.view, facts.clusterName)
    requires after.faults >= before.faults && (after.faults == before.faults ==> ok)
    requires if ok then after.lastNodes == [] && after.settled else after.lastNodes == before.lastNodes
    ensures Orderly(facts, [], before, after)
  {
    hide UniqueTargets, Undisputed, CutSync, CutCleanUp, WantedGroups;
  }

  class NodeTargetGroupSyncer {
    const api: CloudApi
    const facts: Facts
    var lastVisitedNodes: set<string>
    ghost var lastNodes: seq<Node>  // the nodes of the last sync that completed, if no clean-up followed
    ghost var settled: bool         // no call was cut short after changing groups since then

    ghost predicate Valid()
      reads this, api
    {
      && Tidy(api.state) && PlainFacts(facts) && lastVisitedNodes == NodeNames(lastNodes)
      && (settled && lastNodes != [] ==> InPlace(facts, GroupView(api.state), lastNodes))
    }

    constructor (api: CloudApi, facts: Facts)
      requires Tidy(api.state) && PlainFacts(facts)
      ensures Valid() && this.api == api && this.facts == facts
      ensures lastVisitedNodes == {} && lastNodes == [] && settled
    {
      this.api, this.facts := api, facts;
      lastVisitedNodes, lastNodes, settled := {}, [], true;
    }

    /** The instances behind the Yandex nodes. */
    method FindInstances(nodes: seq<Node>) returns (r: Option<seq<InstanceWithNode>>)
      modifies api`faults
      ensures api.faults >= old(api.faults)
      ensures r.Some? ==>
        && (forall n :: n in nodes ==> n.providerId != "" && (IsYandex(n) ==> n.name in facts.instances))
        && r.value == Paired(facts, nodes)
      ensures r.Some? ==> forall p :: p in r.value <==>
        && p.node in nodes && NamesYandex(p.node.providerId)
        && p.node.name in facts.instances && p.instance == facts.instances[p.node.name]
      ensures api.faults == old(api.faults) && Resolvable(facts, nodes) ==> r.Some?
    {
      var instances: seq<InstanceWithNode> := [];
      for i := 0 to |nodes|
        invariant api.faults >= old(api.faults)
        invariant forall n :: n in nodes[..i] ==> n.providerId != "" && (IsYandex(n) ==> n.name in facts.instances)
        invariant instances == Paired(facts, nodes[..i])
      {
        var node := nodes[i];
        assert nodes[..i + 1] == nodes[..i] + [node] && nodes[..i + 1][..i] == nodes[..i];
        if node.providerId == "" {
          return None;
        }
        if IsYandex(node) {
          var answered := api.Ask();
          if !answered || node.name !in facts.instances {
            return None;
          }
          instances := instances + [InstanceWithNode(facts.instances[node.name], node)];
        }
      }
      assert nodes[..|nodes|] == nodes;
      r := Some(instances);
      PairedInFields(facts, nodes);
    }

    /** One step of the loop over the mapping. */
    method SyncGroup(tgName: string, targets: seq<Target>, ghost sc: Scope) returns (ok: bool, ghost done: seq<Request>)
      requires Tidy(api.state) && forall t :: t in targets ==> NoColon(t.subnetId)
      modifies api
      ensures api.faults >= old(api.faults) && Stretch(old(api.state), done, api.state, sc)
      ensures KeepsGroups(old(api.state), api.state)
      ensures ok ==> GroupView(api.state) == GroupView(old(api.state))[tgName := Targets(targets)]
      ensures Reached(GroupView(old(api.state)), tgName, Targets(targets), GroupView(api.state))
      ensures ok || GroupView(api.state) != GroupView(old(api.state)) ==>
                Claimable(GroupView(old(api.state)), tgName, Targets(targets))
      ensures api.faults == old(api.faults) && Distinct(targets)
              && Claimable(GroupView(old(api.state)), tgName, Targets(targets))
              ==> ok
    {
      ghost var c := api.state;
      TidyNames(c, tgName);
      var r;
      ghost var plan, k;
      r, plan, k := CreateOrUpdateTG(api, tgName, targets);
      done := plan[..k];
      GroupPassStretch(c, tgName, targets, plan, k, api.state, sc);
      PassReaches(c, tgName, targets, plan, k, api.state);
      GroupPlanAcceptedIff(c, tgName, targets, plan);
      if k > 0 { EffectNeedsClaim(c, tgName, targets, plan, k, api.state); }
      assert k == 0 ==> api.state == c;
      hide GroupView, Reached, Stretch, Claimable;
      if r.Some? {
        assert plan[..k] == plan;
        PassCompletes(c, tgName, targets, plan, api.state);
      }
      ok := r.Some?;
    }

    /** Bring every group of the mapping into line, in whatever order the mapping yields them. */
    method ApplyMapping(mapping: map<string, seq<Target>>, ghost sc: Scope) returns (ok: bool, ghost done: seq<Request>)
      requires Tidy(api.state) && forall k, t :: k in mapping && t in mapping[k] ==> NoColon(t.subnetId)
      modifies api
      ensures api.faults >= old(api.faults) && Stretch(old(api.state), done, api.state, sc)
      ensures KeepsGroups(old(api.state), api.state)
      ensures ok ==> GroupView(api.state) == GroupView(old(api.state)) + map k | k in mapping :: Targets(mapping[k])
      ensures CutSync(GroupView(old(api.state)), map k | k in mapping :: Targets(mapping[k]), GroupView(api.state))
      ensures StaysBlocked(GroupView(old(api.state)),
                           map k | k in mapping :: Targets(mapping[k]),
                           ok, GroupView(api.state))
      ensures (api.faults == old(api.faults) && (forall k :: k in mapping ==> Distinct(mapping[k])) && Agreeable(
                 GroupView(old(api.state)), map k | k in mapping :: Targets(mapping[k]))) ==> ok
    {
      ghost var c := api.state;
      ghost var wanted := map k | k in mapping :: Targets(mapping[k]);
      ok, done := true, [];
      var pending := mapping.Keys;
      NoProgressYet(c, sc, wanted);
      assert BlockedPending(GroupView(c), wanted, pending, GroupView(c));
      hide Progress, Stretch, KeepsGroups, Targets, Reached, CutSync, Claimable, Apart, GroupView, BlockedPending,
        StaysBlocked;
      while pending != {}
        invariant pending <= mapping.Keys && Tidy(api.state) && api.faults >= old(api.faults)
        invariant Progress(c, done, api.state, sc, wanted, pending)
        invariant BlockedPending(GroupView(c), wanted, pending, GroupView(api.state))
        invariant Agreeable(GroupView(c), wanted) ==> AllClaimable(GroupView(api.state), wanted)
      {
        var tgName :| tgName in pending;
        ghost var before := api.state;
        ghost var more;
        ok, more := SyncGroup(tgName, mapping[tgName], sc);
        ProgressCut(c, done, before, sc, wanted, pending, tgName, api.state);
        ProgressStep(c, done, before, more, api.state, sc, wanted, pending, tgName);
        BlockedPendingStep(GroupView(c), wanted, pending, GroupView(before), tgName, ok, GroupView(api.state));
        done := done + more;
        if !ok {
          BlockedPendingDone(GroupView(c), wanted, pending, GroupView(api.state), false);
          return;
        }
        if Agreeable(GroupView(c), wanted) { UpdateKeepsClaimable(GroupView(before), wanted, tgName); }
        pending := pending - {tgName};
      }
      Progressed(c, done, api.state, sc, wanted);
      BlockedPendingDone(GroupView(c), wanted, pending, GroupView(api.state), true);
    }

    method SynchronizeNodesWithTargetGroups(nodes: seq<Node>, ghost sc: Scope)
      returns (ok: bool, ghost done: seq<Request>)
      requires Valid()
      modifies this, api
      ensures Valid() && api.faults >= old(api.faults)
      ensures Stretch(old(api.state), done, api.state, sc) && KeepsGroups(old(api.state), api.state)
      ensures if nodes == [] || NodeNames(nodes) == old(lastVisitedNodes) then ok && Unchanged()
              else ok ==>
                && WantedGroups(facts, nodes).Some?
                && GroupView(api.state) == GroupView(old(api.state)) + WantedGroups(facts, nodes).value
                && lastNodes == nodes && settled
      ensures !ok ==> lastNodes == old(lastNodes) && (settled ==> old(settled))
      ensures Orderly(facts, nodes, old(Snapshot()), Snapshot()) && StaysSettled(old(Snapshot()), Snapshot(), ok)
      ensures nodes != [] && NodeNames(nodes) != old(lastVisitedNodes) && WantedGroups(facts, nodes).Some? ==>
                StaysBlocked(GroupView(old(api.state)), WantedGroups(facts, nodes).value, ok, GroupView(api.state))
      ensures ok || api.state == old(api.state) || (
                && WantedGroups(facts, nodes).Some?
                && CutSync(GroupView(old(api.state)), WantedGroups(facts, nodes).value, GroupView(api.state)))
      ensures Quiet(facts, nodes, old(Snapshot()), Snapshot()) && WantedGroups(facts, nodes).Some? ==> ok
      ensures Quiet(facts, nodes, old(Snapshot()), Snapshot()) ==>
                CachedStep(facts, SyncerState(GroupView(old(api.state)), old(lastVisitedNodes)), SyncCall(nodes, true))
                == SyncerState(GroupView(api.state), lastVisitedNodes)
    {
      hide Tidy, Stretch, KeepsGroups, GroupView, InPlace, CutSync, Orderly, WantedGroups, UniqueTargets, NoColon,
        PlainFacts,
        Blocked;
      ghost var c, start := api.state, Snapshot();
      done := [];
      NothingDone(c, sc);
      NothingIsOrderly(facts, nodes, start, api.faults);
      if |nodes| == 0 {
        return true, [];
      }
      var newSet := set n | n in nodes :: n.name;
      assert newSet == NodeNames(nodes);
      if lastVisitedNodes == newSet {
        return true, [];
      }
      ok := false;
      var mapped := FindMapping(nodes);
      if mapped.MappingFailed? {
        NothingIsOrderly(facts, nodes, start, api.faults);
        return;
      }
      ok, done := ApplyMapping(mapped.mapping, sc);
      StretchIsTidy(c, done, api.state, sc);
      if ok {
        lastVisitedNodes, lastNodes, settled := newSet, nodes, true;
        AppliedIsInPlace(facts, GroupView(c), nodes);
      } else if GroupView(api.state) != GroupView(c) {
        settled := false;
      }
      SyncIsOrderly(facts, nodes, start, Snapshot(), ok);
    }

    /** What the nodes call for, as far as the other services answer. */
    method FindMapping(nodes: seq<Node>) returns (mapped: Mapping)
      requires PlainFacts(facts)
      modifies api`faults
      ensures api.faults >= old(api.faults)
      ensures mapped.Mapped? ==> IsMapping(facts, nodes, mapped.mapping)
      ensures mapped.MappingFailed? && api.faults == old(api.faults) ==> WantedGroups(facts, nodes).None?
    {
      hide Files, Paired, PlaceAll, Placements, IsYandex, KnownSubnets, UniqueTargets, PlainFacts;
      var instances := FindInstances(nodes);
      if instances.None? {
        return MappingFailed;
      }
      mapped := ConstructTgNameToTargetMap(api, facts, instances.value);
      if mapped.MappingFailed? {
        FailedMapping(facts, nodes);
      } else {
        MappingIsWanted(facts, nodes, mapped.mapping);
        MappingIsPlain(facts, nodes, mapped.mapping);
        MappingIsDistinct(facts, nodes, mapped.mapping);
      }
    }

    ghost function Snapshot(): Memory
      reads this, api
    {
      Memory(GroupView(api.state), lastNodes, settled, api.faults)
    }

    twostate predicate Unchanged()
      reads this, api
    {
      api.state == old(api.state) && lastVisitedNodes == old(lastVisitedNodes)
      && lastNodes == old(lastNodes) && settled == old(settled)
    }

    /** The parallel deletions: each group on its own, in any order, all of them even if one fails. */
    method DeleteGroups(ids: set<Id>, ghost sc: Scope) returns (ok: bool, ghost done: seq<Request>, ghost gone: set<Id>)
      requires Tidy(api.state) && sc.active == {}
      requires forall id :: id in ids ==> id in api.state.groups && Contains(api.state.groups[id].name, sc.cluster)
      modifies api
      ensures api.faults >= old(api.faults) && (api.faults == old(api.faults) ==> ok)
      ensures Stretch(old(api.state), done, api.state, sc)
      ensures gone <= ids && api.state == old(api.state).(groups := old(api.state).groups - gone)
      ensures ok ==> gone == ids
    {
      ghost var c := api.state;
      NothingDeleted(c, sc);
      ok, done, gone := true, [], {};
      var pending := ids;
      hide Stretch, Tidy, ValidCloud, Contains, Performed;
      while pending != {}
        invariant pending <= ids && gone <= ids - pending && (ok ==> gone == ids - pending)
        invariant api.faults >= old(api.faults) && (api.faults == old(api.faults) ==> ok)
        invariant ValidCloud(api.state) && Deleted(c, done, api.state, gone, sc)
      {
        var id :| id in pending;
        ghost var before := api.state;
        var removed;
        ghost var more;
        removed, more := RemoveTGByID(api, id);
        DeletedOneMore(c, done, before, gone, id, more, api.state, sc);
        done := done + more;
        pending := pending - {id};
        gone := if more == [] then gone else gone + {id};
        ok := ok && removed;
      }
    }

    /** List the groups of the cluster and delete them. */
    method DeleteClusterGroups(ghost sc: Scope) returns (ok: bool, ghost done: seq<Request>)
      requires Tidy(api.state) && sc.active == {} && sc.cluster == facts.clusterName
      modifies api
      ensures api.faults >= old(api.faults) && Stretch(old(api.state), done, api.state, sc)
      ensures CutCleanUp(GroupView(old(api.state)), GroupView(api.state), sc.cluster)
      ensures WithoutCluster(GroupView(api.state), sc.cluster) == WithoutCluster(GroupView(old(api.state)), sc.cluster)
      ensures ok && |old(api.state).groups.Keys| <= 1000 ==>
                GroupView(api.state) == WithoutCluster(GroupView(old(api.state)), sc.cluster)
      ensures api.faults == old(api.faults) ==> ok
    {
      ghost var c := api.state;
      NothingDone(c, sc);
      hide GroupView, WithoutCluster, Stretch, CutCleanUp;
      var tgs := GetTGsByClusterName(api, facts.clusterName);
      if tgs.None? {
        return false, [];
      }
      var ids := set id | id in tgs.value;
      ghost var gone;
      ok, done, gone := DeleteGroups(ids, sc);
      DeletedView(c, gone, sc.cluster);
    }

    method CleanUpTargetGroups(ghost sc: Scope) returns (ok: bool, ghost done: seq<Request>)
      requires Valid() && sc.active == {} && sc.cluster == facts.clusterName
      modifies this, api
      ensures Valid() && api.faults >= old(api.faults)
      ensures Stretch(old(api.state), done, api.state, sc)
      ensures Orderly(facts, [], old(Snapshot()), Snapshot()) && StaysSettled(old(Snapshot()), Snapshot(), ok)
      ensures CutCleanUp(GroupView(old(api.state)), GroupView(api.state), facts.clusterName)
      ensures WithoutCluster(GroupView(api.state), facts.clusterName) ==
              WithoutCluster(GroupView(old(api.state)), facts.clusterName)
      ensures ok ==> lastVisitedNodes == {} && lastNodes == [] && settled
      ensures ok && |old(api.state).groups.Keys| <= 1000 ==>
                GroupView(api.state) == WithoutCluster(GroupView(old(api.state)), facts.clusterName)
                && NoGroupLeft(facts, GroupView(api.state))
      ensures !ok ==> lastNodes == old(lastNodes) && (settled ==> old(settled))
      ensures api.faults == old(api.faults) ==> ok
    {
      ghost var c, start := api.state, Snapshot();
      ok, done := DeleteClusterGroups(sc);
      StretchIsTidy(c, done, api.state, sc);
      NothingOfTheCluster(facts, GroupView(c));
      hide GroupView, WithoutCluster, CutCleanUp, NoGroupLeft, Stretch;
      if ok {
        lastVisitedNodes, lastNodes, settled := {}, [], true;
      } else if GroupView(api.state) != GroupView(c) {
        settled := false;
      }
      CleanUpIsOrderly(facts, start, Snapshot(), ok);
    }

    /** One call: clean up if there is nothing to sync and no active service, otherwise sync. */
    method SyncTGs(nodes: seq<Node>, services: seq<Service>, ghost sc: Scope)
      returns (ok: bool, ghost done: seq<Request>)
      requires Valid() && sc.active == ActiveNames(services) && sc.cluster == facts.clusterName
      modifies this, api
      ensures Valid() && api.faults >= old(api.faults)
      ensures Stretch(old(api.state), done, api.state, sc)
      ensures nodes != [] || sc.active != {} ==> KeepsGroups(old(api.state), api.state)
      ensures ok && nodes != [] && NodeNames(nodes) != old(lastVisitedNodes) ==>
                && WantedGroups(facts, nodes).Some?
                && GroupView(api.state) == GroupView(old(api.state)) + WantedGroups(facts, nodes).value
                && lastNodes == nodes && settled
      ensures nodes != [] && NodeNames(nodes) == old(lastVisitedNodes) ==> Unchanged()
      ensures nodes != [] && NodeNames(nodes) != old(lastVisitedNodes) && WantedGroups(facts, nodes).Some? ==>
                StaysBlocked(GroupView(old(api.state)), WantedGroups(facts, nodes).value, ok, GroupView(api.state))
      ensures ok && nodes == [] && sc.active != {} ==> Unchanged()
      ensures nodes == [] && api.faults == old(api.faults) ==> ok
      ensures ok && nodes == [] && sc.active == {} ==> lastVisitedNodes == {} && lastNodes == [] && settled
      ensures ok && nodes == [] && sc.active == {} && |old(api.state).groups.Keys| <= 1000 ==>
                GroupView(api.state) == WithoutCluster(GroupView(old(api.state)), facts.clusterName)
                && NoGroupLeft(facts, GroupView(api.state))
      ensures nodes == [] && (exists s :: s in services && s.isLoadBalancer && !s.deleting) ==>
                api.state == old(api.state)
      ensures ok && nodes == [] && (forall s :: s in services ==> !s.isLoadBalancer || s.deleting) ==>
                && lastVisitedNodes == {}
                && (|old(api.state).groups.Keys| <= 1000 ==>
                      forall id :: id in api.state.groups ==> !Contains(api.state.groups[id].name, facts.clusterName))
      ensures !ok ==> lastVisitedNodes == old(lastVisitedNodes)
      ensures ok || api.state == old(api.state) || (
                if nodes == [] then CutCleanUp(GroupView(old(api.state)), GroupView(api.state), facts.clusterName)
                else
                  && WantedGroups(facts, nodes).Some?
                  && CutSync(GroupView(old(api.state)), WantedGroups(facts, nodes).value, GroupView(api.state)))
      ensures Quiet(facts, nodes, old(Snapshot()), Snapshot()) && WantedGroups(facts, nodes).Some? ==> ok
      ensures Orderly(facts, nodes, old(Snapshot()), Snapshot()) && StaysSettled(old(Snapshot()), Snapshot(), ok)
      ensures Quiet(facts, nodes, old(Snapshot()), Snapshot()) && |old(api.state).groups.Keys| <= 1000 ==>
                CachedStep(facts, SyncerState(GroupView(old(api.state)), old(lastVisitedNodes)),
                           SyncCall(nodes, sc.active != {}))
                == SyncerState(GroupView(api.state), lastVisitedNodes)
    {
      NothingDone(api.state, sc);
      hide GroupView, CutSync, CutCleanUp, NoGroupLeft, WantedGroups, Orderly, Quiet, UniqueTargets, Stretch,
        KeepsGroups, PlainFacts, Tidy, InPlace,
        Blocked;
      ghost var start := Snapshot();
      var answered := api.Ask();
      ghost var asked := api.faults;
      NothingIsOrderly(facts, nodes, start, asked);
      if !answered {
        return false, [];
      }
      var activeLoadBalancerServicesExist := AnyActive(services);
      if |nodes| == 0 && !activeLoadBalancerServicesExist {
        ok, done := CleanUpTargetGroups(sc);
        NoneOfTheCluster(api.state, GroupView(old(api.state)), facts.clusterName);
      } else {
        ok, done := SynchronizeNodesWithTargetGroups(nodes, sc);
      }
      OrderlySince(facts, nodes, start, asked, Snapshot());
    }
  }

  /** The loop over the services. */
  method AnyActive(services: seq<Service>) returns (exist: bool)
    ensures exist <==> exists s :: s in services && s.isLoadBalancer && !s.deleting
    ensures exist <==> ActiveNames(services) != {}
  {
    exist := false;
    for i := 0 to |services|
      invariant !exist && forall s :: s in services[..i] ==> !s.isLoadBalancer || s.deleting
    {
      if services[i].isLoadBalancer && !services[i].deleting {
        exist := true;
        break;
      }
      assert services[..i + 1] == services[..i] + [services[i]];
    }
    assert services[..|services|] == services;
    ActiveIffListed(services);
  }

  /** A service counts as active exactly if it is a load balancer service that is not being deleted. */
  lemma ActiveIffListed(services: seq<Service>)
    ensures ActiveNames(services) != {} <==> exists s :: s in services && s.isLoadBalancer && !s.deleting
  {
    if s :| s in services && s.isLoadBalancer && !s.deleting {
      assert DefaultLoadBalancerName(s.uid) in ActiveNames(services);
    }
  }

  lemma NoneOfTheCluster(c: CloudState, view: View, cluster: string)
    ensures GroupView(c) == WithoutCluster(view, cluster) ==>
              forall id :: id in c.groups ==> !Contains(c.groups[id].name, cluster)
  {
    forall id | id in c.groups ensures c.groups[id].name in GroupView(c) { }
    hide Contains;
  }

  lemma NothingDone(c: CloudState, sc: Scope)
    requires Tidy(c)
    ensures Stretch(c, [], c, sc) && KeepsGroups(c, c)
  {
  }

  lemma TidyIsValid(c: CloudState)
    requires Tidy(c)
    ensures ValidCloud(c)
  {
  }

  lemma StretchIsTidy(c: CloudState, done: seq<Request>, after: CloudState, sc: Scope)
    requires Stretch(c, done, after, sc)
    ensures Tidy(after)
  {
  }

  lemma FailedMapping(facts: Facts, nodes: seq<Node>)
    requires forall n :: n in nodes ==> n.providerId != "" && (IsYandex(n) ==> n.name in facts.instances)
    ensures WantedGroups(facts, nodes).Some? ==>
              && (forall p :: p in Paired(facts, nodes) ==> KnownSubnets(facts, p))
              && PlaceAll(facts, Paired(facts, nodes)) != []
  {
    if Resolvable(facts, nodes) { PairedKnown(facts, nodes); }
  }

  /** The mapping lists what the nodes call for, with plain subnets, and no target twice if the nodes'
      interfaces share none. */
  ghost predicate IsMapping(facts: Facts, nodes: seq<Node>, mapping: map<string, seq<Target>>) {
    && WantedGroups(facts, nodes) == Some(map k | k in mapping :: Targets(mapping[k]))
    && (forall k, t :: k in mapping && t in mapping[k] ==> NoColon(t.subnetId))
    && (UniqueTargets(facts, nodes) ==>
          (forall k :: k in mapping ==> Distinct(mapping[k])) && Apart(map k | k in mapping :: Targets(mapping[k])))
  }

  /** The wanted groups share no target, and none of their targets is in another group. */
  ghost predicate Agreeable(view: View, wanted: View) {
    Apart(wanted) && AllClaimable(view, wanted)
  }

  lemma MappingIsDistinct(facts: Facts, nodes: seq<Node>, mapping: map<string, seq<Target>>)
    requires Resolvable(facts, nodes) && Files(mapping, Placements(facts, nodes))
    ensures UniqueTargets(facts, nodes) ==>
              (forall k :: k in mapping ==> Distinct(mapping[k])) && Apart(map k | k in mapping :: Targets(mapping[k]))
  {
    if UniqueTargets(facts, nodes) {
      PairedKnown(facts, nodes);
      NoTargetTwice(facts, Paired(facts, nodes), mapping);
    }
  }

  lemma AppliedIsInPlace(facts: Facts, groups: map<string, set<Target>>, nodes: seq<Node>)
    requires WantedGroups(facts, nodes).Some?
    ensures InPlace(facts, groups + WantedGroups(facts, nodes).value, nodes)
  {
    var wanted := WantedGroups(facts, nodes).value;
    assert groups + wanted + wanted == groups + wanted;
  }

  /** These groups are gone and everything else is as it was. */
  ghost predicate Deleted(c: CloudState, done: seq<Request>, now: CloudState, gone: set<Id>, sc: Scope) {
    Stretch(c, done, now, sc) && now == c.(groups := c.groups - gone)
  }

  lemma NothingDeleted(c: CloudState, sc: Scope)
    requires Tidy(c)
    ensures Deleted(c, [], c, {}, sc) && ValidCloud(c)
  {
    NothingDone(c, sc);
    assert c.groups - {} == c.groups;
  }

  lemma DeletedOneMore(c: CloudState, done: seq<Request>, before: CloudState, gone: set<Id>, id: Id,
                       more: seq<Request>, now: CloudState, sc: Scope)
    requires Deleted(c, done, before, gone, sc) && sc.active == {} && id !in gone
    requires id in c.groups && Contains(c.groups[id].name, sc.cluster)
    requires (more == [] || more == [DeleteGroup(id)]) && Performed(before, more, now)
    ensures Deleted(c, done + more, now, if more == [] then gone else gone + {id}, sc) && ValidCloud(now)
  {
    StretchIsTidy(c, done, before, sc);
    hide Stretch, Contains, Performed;
    DeletionStretch(before, id, more, now, sc);
    StretchAppend(c, done, before, more, now, sc);
    StretchIsTidy(before, more, now, sc);
    TidyIsValid(now);
    hide Tidy;
    assert c.groups - gone - {id} == c.groups - (gone + {id});
  }

  lemma DeletionStretch(c: CloudState, id: Id, done: seq<Request>, after: CloudState, sc: Scope)
    requires Tidy(c) && id in c.groups && Contains(c.groups[id].name, sc.cluster) && sc.active == {}
    requires (done == [] || done == [DeleteGroup(id)]) && Performed(c, done, after)
    ensures Stretch(c, done, after, sc)
    ensures after == if done == [] then c else c.(groups := c.groups - {id})
  {
    if done != [] {
      PerformedOne(c, DeleteGroup(id), after);
      assert done[1..] == [];
    }
  }

  /** What is left by name after some groups of the cluster are gone. */
  lemma DeletedView(c: CloudState, gone: set<Id>, cluster: string)
    requires UniqueGroups(c) && forall id :: id in gone ==> id in c.groups && Contains(c.groups[id].name, cluster)
    ensures var after := c.(groups := c.groups - gone);
            && CutCleanUp(GroupView(c), GroupView(after), cluster)
            && WithoutCluster(GroupView(after), cluster) == WithoutCluster(GroupView(c), cluster)
            && ((forall id :: id in c.groups && Contains(c.groups[id].name, cluster) ==> id in gone) ==>
                  GroupView(after) == WithoutCluster(GroupView(c), cluster))
  {
    var after := c.(groups := c.groups - gone);
    NamesLeft(c, gone, cluster);
    TargetsLeft(c, gone, cluster);
    AgreeOutside(GroupView(after), GroupView(c), cluster);
    KeptAsTheyWere(c, gone);
  }

  /** The groups that are left hold what they held. */
  lemma KeptAsTheyWere(c: CloudState, gone: set<Id>)
    requires UniqueGroups(c)
    ensures var view, now := GroupView(c), GroupView(c.(groups := c.groups - gone));
            now.Keys <= view.Keys && forall k :: k in now ==> now[k] == view[k]
  {
    var after := c.(groups := c.groups - gone);
    forall k | k in GroupNames(after) ensures k in GroupNames(c) && TargetsNamed(after, k) == TargetsNamed(c, k) {
      var id :| id in after.groups && after.groups[id].name == k;
      NamedIsView(c, id);
      NamedIsView(after, id);
    }
  }

  /** No group of a name that a sync could produce, whatever the node and the network. */
  ghost predicate NoGroupLeft(facts: Facts, view: map<string, set<Target>>) {
    forall n, network :: GroupKey(facts, n, network) !in view
  }

  /** The clean-up filter catches every name a sync could produce. */
  lemma NothingOfTheCluster(facts: Facts, view: map<string, set<Target>>)
    ensures NoGroupLeft(facts, WithoutCluster(view, facts.clusterName))
  {
    forall n, network ensures GroupKey(facts, n, network) !in WithoutCluster(view, facts.clusterName) {
      KeysContainCluster(facts, n, network);
    }
  }

  lemma AgreeOutside(v: map<string, set<Target>>, w: map<string, set<Target>>, cluster: string)
    requires forall n :: !Contains(n, cluster) ==> (n in v <==> n in w)
    requires forall n :: n in v && n in w && !Contains(n, cluster) ==> v[n] == w[n]
    ensures WithoutCluster(v, cluster) == WithoutCluster(w, cluster)
    ensures (forall n :: n in v ==> !Contains(n, cluster)) ==> v == WithoutCluster(w, cluster)
  {
    hide Contains;
  }

  lemma NamesLeft(c: CloudState, gone: set<Id>, cluster: string)
    requires UniqueGroups(c) && forall id :: id in gone ==> id in c.groups && Contains(c.groups[id].name, cluster)
    ensures forall n :: !Contains(n, cluster) ==>
              (n in GroupNames(c.(groups := c.groups - gone)) <==> n in GroupNames(c))
    ensures (forall id :: id in c.groups && Contains(c.groups[id].name, cluster) ==> id in gone) ==>
              forall n :: n in GroupNames(c.(groups := c.groups - gone)) ==> !Contains(n, cluster)
  {
    var after := c.(groups := c.groups - gone);
    forall n | !Contains(n, cluster) ensures n in GroupNames(after) <==> n in GroupNames(c) {
      if id :| id in c.groups && c.groups[id].name == n { assert id in after.groups; }
    }
  }

  lemma TargetsLeft(c: CloudState, gone: set<Id>, cluster: string)
    requires UniqueGroups(c) && forall id :: id in gone ==> id in c.groups && Contains(c.groups[id].name, cluster)
    ensures forall n :: !Contains(n, cluster) ==> TargetsNamed(c.(groups := c.groups - gone), n) == TargetsNamed(c, n)
  {
    var after := c.(groups := c.groups - gone);
    forall n, t | !Contains(n, cluster) ensures t in TargetsNamed(after, n) <==> t in TargetsNamed(c, n) {
      if id :| id in c.groups && c.groups[id].name == n && t in c.groups[id].targets { assert id in after.groups; }
    }
  }

  /** The groups outside pending are in line, the others as they were. */
  ghost predicate Progress(c: CloudState, done: seq<Request>, now: CloudState, sc: Scope,
                           wanted: map<string, set<Target>>, pending: set<string>)
  {
    Stretch(c, done, now, sc) && KeepsGroups(c, now) && GroupView(now) == GroupView(c) + (wanted - pending)
  }

  lemma NoProgressYet(c: CloudState, sc: Scope, wanted: map<string, set<Target>>)
    requires Tidy(c)
    ensures Progress(c, [], c, sc, wanted, wanted.Keys)
  {
    assert GroupView(c) + (wanted - wanted.Keys) == GroupView(c);
  }

  lemma Progressed(c: CloudState, done: seq<Request>, now: CloudState, sc: Scope, wanted: map<string, set<Target>>)
    requires Progress(c, done, now, sc, wanted, {})
    ensures Stretch(c, done, now, sc) && KeepsGroups(c, now) && GroupView(now) == GroupView(c) + wanted
    ensures CutSync(GroupView(c), wanted, GroupView(now))
  {
    assert wanted - {} == wanted;
    assert IsCut(GroupView(c), wanted, wanted);
  }

  /** Wherever the loop is left, the groups are those of a sync cut short there. */
  lemma ProgressCut(c: CloudState, done: seq<Request>, before: CloudState, sc: Scope, wanted: map<string, set<Target>>,
                    pending: set<string>, name: string, now: CloudState)
    requires Progress(c, done, before, sc, wanted, pending) && name in pending && pending <= wanted.Keys
    requires Reached(GroupView(before), name, wanted[name], GroupView(now))
    ensures CutSync(GroupView(c), wanted, GroupView(now))
  {
    hide Stretch, KeepsGroups, GroupView;
    CutAt(GroupView(c), GroupView(before), wanted, pending, name, GroupView(now));
  }

  lemma CutAt(start: map<string, set<Target>>, before: map<string, set<Target>>, wanted: map<string, set<Target>>,
              pending: set<string>, name: string, now: map<string, set<Target>>)
    requires before == start + (wanted - pending) && name in pending && pending <= wanted.Keys
    requires Reached(before, name, wanted[name], now)
    ensures CutSync(start, wanted, now)
  {
    var finished := wanted - pending;
    var mid := if now == before then finished else finished[name := now[name]];
    assert IsCut(start, wanted, mid);
    assert now == start + mid;
  }

  lemma ProgressStep(c: CloudState, done: seq<Request>, before: CloudState, more: seq<Request>, now: CloudState,
                     sc: Scope,
                     wanted: map<string, set<Target>>, pending: set<string>, name: string)
    requires Progress(c, done, before, sc, wanted, pending) && name in pending && pending <= wanted.Keys
    requires Stretch(before, more, now, sc) && KeepsGroups(before, now)
    ensures Stretch(c, done + more, now, sc) && KeepsGroups(c, now) && Tidy(now)
    ensures GroupView(now) == GroupView(before)[name := wanted[name]] ==>
              Progress(c, done + more, now, sc, wanted, pending - {name})
  {
    hide KeepsGroups, GroupView, Performed, LawfulRun, UniqueGroups, PlainSubnets, ValidCloud;
    StretchAppend(c, done, before, more, now, sc);
    KeepsTransitive(c, before, now);
    OneMoreGroup(GroupView(c), GroupView(before), wanted, pending, name);
  }

  lemma KeepsTransitive(c: CloudState, mid: CloudState, after: CloudState)
    requires KeepsGroups(c, mid) && KeepsGroups(mid, after)
    ensures KeepsGroups(c, after)
  {
  }

  lemma OneMoreGroup(start: map<string, set<Target>>, view: map<string, set<Target>>, wanted: map<string, set<Target>>,
                     pending: set<string>, name: string)
    requires view == start + (wanted - pending) && name in pending && pending <= wanted.Keys
    ensures view[name := wanted[name]] == start + (wanted - (pending - {name}))
  {
  }

  lemma TidyNames(c: CloudState, name: string)
    requires UniqueGroups(c)
    ensures AtMostOne(GroupsNamed(c, name))
  {
  }

  lemma GroupPassStretch(c: CloudState, name: string, wanted: seq<Target>, plan: seq<Request>, k: nat,
                         after: CloudState, sc: Scope)
    requires Tidy(c) && ValidCloud(after) && IsGroupPlan(c, name, wanted, plan) && k <= |plan|
    requires Performed(c, plan[..k], after)
    requires forall t :: t in wanted ==> NoColon(t.subnetId)
    ensures Stretch(c, plan[..k], after, sc) && KeepsGroups(c, after)
  {
    PassTouchesOneGroup(c, name, wanted, plan, k, after);
    PassKeepsPlainSubnets(c, name, wanted, plan, k, after);
    GroupPassIsLawful(c, name, wanted, plan, k, sc);
    GroupPassSendsGroupRequests(c, name, wanted, plan);
    assert GroupRequests(plan[..k]);
  }

  lemma GroupPassSendsGroupRequests(c: CloudState, name: string, wanted: seq<Target>, plan: seq<Request>)
    requires IsGroupPlan(c, name, wanted, plan)
    ensures GroupRequests(plan)
  {
    if id :| id in GroupsNamed(c, name) {
      assert GroupsNamed(c, name) == {id};
      var toAdd, toRemove := UpdatePlanIs(c, name, wanted, plan, id);
    }
  }
}
