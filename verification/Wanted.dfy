/**
 What a sync wants the target groups to be, and why remembering the last visited nodes is sound
 (pkg/cloudprovider/yandex/load_balancer_tg_controller.go:38-183).
 */
module Wanted {
  import opened Seqs
  import opened Cloud
  import opened Claims
  import opened TargetGroups
  import opened Grouping
  import opened GroupingLaws

  /** Every node has a provider id, and every Yandex node an instance with known subnets. */
  predicate Resolvable(facts: Facts, nodes: seq<Node>) {
    forall n :: n in nodes ==>
      n.providerId != "" &&
      (IsYandex(n) ==>
        n.name in facts.instances && KnownSubnets(facts, InstanceWithNode(facts.instances[n.name], n)))
  }

  /** The instances of the Yandex nodes, in node order. */
  ghost function Paired(facts: Facts, nodes: seq<Node>): seq<InstanceWithNode>
    requires forall n :: n in nodes && IsYandex(n) ==> n.name in facts.instances
  {
    if nodes == [] then [] else
    var last := nodes[|nodes| - 1];
    Paired(facts, nodes[..|nodes| - 1]) +
    if IsYandex(last) then [InstanceWithNode(facts.instances[last.name], last)] else []
  }

  lemma {:induction false} PairedMembers(facts: Facts, nodes: seq<Node>, p: InstanceWithNode)
    requires forall n :: n in nodes && IsYandex(n) ==> n.name in facts.instances
    ensures p in Paired(facts, nodes) <==>
            p.node in nodes && IsYandex(p.node) && p.instance == facts.instances[p.node.name]
  {
    if nodes != [] {
      assert nodes == nodes[..|nodes| - 1] + [nodes[|nodes| - 1]];
      PairedMembers(facts, nodes[..|nodes| - 1], p);
    }
  }

  /** Node n has an interface in a network such that its target t is filed under key. */
  ghost predicate Contributes(facts: Facts, n: Node, key: string, t: Target) {
    && IsYandex(n) && n.name in facts.instances && t.subnetId in facts.networks
    && Interface(t.subnetId, t.address) in facts.instances[n.name].interfaces
    && key == GroupKey(facts, n, facts.networks[t.subnetId])
  }

  /** All placements of a sync of these nodes. */
  ghost function Placements(facts: Facts, nodes: seq<Node>): seq<Placed>
    requires Resolvable(facts, nodes)
  {
    PairedKnown(facts, nodes);
    PlaceAll(facts, Paired(facts, nodes))
  }

  lemma PairedKnown(facts: Facts, nodes: seq<Node>)
    requires Resolvable(facts, nodes)
    ensures forall p :: p in Paired(facts, nodes) ==> KnownSubnets(facts, p)
  {
    forall p | p in Paired(facts, nodes) ensures KnownSubnets(facts, p) {
      PairedMembers(facts, nodes, p);
    }
  }

  lemma PlacementsMembers(facts: Facts, nodes: seq<Node>, x: Placed)
    requires Resolvable(facts, nodes)
    ensures x in Placements(facts, nodes) <==> exists n :: n in nodes && Contributes(facts, n, x.key, x.target)
  {
    var ps := Paired(facts, nodes);
    PairedKnown(facts, nodes);
    PlaceAllMembers(facts, ps, x);
    if x in Placements(facts, nodes) {
      var p, i :| p in ps && i in p.instance.interfaces && x == PlaceOne(facts, p, i);
      PairedMembers(facts, nodes, p);
      assert Contributes(facts, p.node, x.key, x.target);
    }
    if n :| n in nodes && Contributes(facts, n, x.key, x.target) {
      var p := InstanceWithNode(facts.instances[n.name], n);
      PairedMembers(facts, nodes, p);
      assert x == PlaceOne(facts, p, Interface(x.target.subnetId, x.target.address));
    }
  }

  /** The groups that a sync of these nodes wants, by name; nothing if the sync cannot know. */
  ghost function WantedGroups(facts: Facts, nodes: seq<Node>): Option<map<string, set<Target>>> {
    if !Resolvable(facts, nodes) || Placements(facts, nodes) == [] then None
    else Some(map k | k in KeysOf(Placements(facts, nodes)) :: Targets(TargetsFor(Placements(facts, nodes), k)))
  }

  /** A wanted group holds exactly what the nodes contribute to it. */
  lemma WantedMembers(facts: Facts, nodes: seq<Node>, key: string, t: Target)
    requires WantedGroups(facts, nodes).Some?
    ensures key in WantedGroups(facts, nodes).value && t in WantedGroups(facts, nodes).value[key]
       <==> exists n :: n in nodes && Contributes(facts, n, key, t)
  {
    PlacementsMembers(facts, nodes, Placed(key, t));
    TargetsForMembers(Placements(facts, nodes), key, t);
    if Placed(key, t) in Placements(facts, nodes) {
      assert Placed(key, t).key in KeysOf(Placements(facts, nodes));
    }
  }

  /** Neither the order nor the repetition of nodes matters to what is wanted. */
  lemma WantedDependsOnSet(facts: Facts, nodes: seq<Node>, other: seq<Node>)
    requires forall n :: n in nodes <==> n in other
    ensures WantedGroups(facts, nodes) == WantedGroups(facts, other)
  {
    if Resolvable(facts, nodes) {
      assert Resolvable(facts, other);
      hide Placements, TargetsFor, KeysOf;
      forall x ensures x in Placements(facts, nodes) <==> x in Placements(facts, other) {
        PlacementsMembers(facts, nodes, x);
        PlacementsMembers(facts, other, x);
      }
      SamePlacementsSameGroups(facts, nodes, other);
    }
  }

  /** When a sync knows what it wants, in plain fields: every node has a provider id, every Yandex node an
      instance with known subnets, and there is some interface. */
  lemma WantedIff(facts: Facts, nodes: seq<Node>)
    ensures WantedGroups(facts, nodes).Some? <==>
            && (forall n :: n in nodes ==> n.providerId != "" && (NamesYandex(n.providerId) ==> IsKnown(facts, n)))
            && (exists n, i :: n in nodes && NamesYandex(n.providerId) && HasInterface(facts, n, i))
  {
    forall n ensures IsYandex(n) <==> NamesYandex(n.providerId) { YandexIff(n); }
    hide IsYandex, NamesYandex, Placements;
    assert Resolvable(facts, nodes) <==>
      forall n :: n in nodes ==> n.providerId != "" && (NamesYandex(n.providerId) ==> IsKnown(facts, n));
    if Resolvable(facts, nodes) {
      if Placements(facts, nodes) != [] {
        var x := Placements(facts, nodes)[0];
        PlacementsMembers(facts, nodes, x);
        var n :| n in nodes && Contributes(facts, n, x.key, x.target);
        assert HasInterface(facts, n, Interface(x.target.subnetId, x.target.address));
      }
      if n, i :| n in nodes && NamesYandex(n.providerId) && HasInterface(facts, n, i) {
        assert IsKnown(facts, n);
        var x := Placed(GroupKey(facts, n, facts.networks[i.subnetId]), Target(i.subnetId, i.address));
        assert Contributes(facts, n, x.key, x.target);
        PlacementsMembers(facts, nodes, x);
      }
    }
  }

  ghost predicate IsKnown(facts: Facts, n: Node) {
    n.name in facts.instances && forall i :: i in facts.instances[n.name].interfaces ==> i.subnetId in facts.networks
  }

  ghost predicate HasInterface(facts: Facts, n: Node, i: Interface) {
    n.name in facts.instances && i in facts.instances[n.name].interfaces
  }

  /** A node of another provider changes neither whether the nodes can be resolved nor what they call for. */
  lemma OtherNodesDoNotMatter(facts: Facts, before: seq<Node>, n: Node, after: seq<Node>)
    requires n.providerId != ""
    requires forall left, right :: n.providerId != left + "yandex" + right
    ensures Resolvable(facts, before + [n] + after) <==> Resolvable(facts, before + after)
    ensures Resolvable(facts, before + after) ==> Paired(facts, before + [n] + after) == Paired(facts, before + after)
    ensures WantedGroups(facts, before + [n] + after) == WantedGroups(facts, before + after)
  {
    YandexIff(n);
    var more, less := before + [n] + after, before + after;
    assert n in more && forall m :: m in more <==> m == n || m in less;
    hide IsYandex, KnownSubnets;
    if Resolvable(facts, less) { PairedWithout(facts, before, n, after); }
  }

  lemma {:induction false} PairedWithout(facts: Facts, before: seq<Node>, n: Node, after: seq<Node>)
    requires !IsYandex(n) && forall m :: m in before + after && IsYandex(m) ==> m.name in facts.instances
    ensures forall m :: m in before + [n] + after && IsYandex(m) ==> m.name in facts.instances
    ensures Paired(facts, before + [n] + after) == Paired(facts, before + after)
    decreases |after|
  {
    var more, less := before + [n] + after, before + after;
    hide IsYandex;
    if after == [] {
      assert more[..|more| - 1] == before && less == before;
    } else {
      var front, last := after[..|after| - 1], after[|after| - 1];
      assert more[..|more| - 1] == before + [n] + front && less[..|less| - 1] == before + front;
      assert more[|more| - 1] == last && less[|less| - 1] == last && last in less;
      assert forall m :: m in before + front ==> m in less;
      PairedWithout(facts, before, n, front);
    }
  }

  lemma SamePlacementsSameGroups(facts: Facts, nodes: seq<Node>, other: seq<Node>)
    requires Resolvable(facts, nodes) && Resolvable(facts, other)
    requires forall x :: x in Placements(facts, nodes) <==> x in Placements(facts, other)
    ensures WantedGroups(facts, nodes) == WantedGroups(facts, other)
  {
    var xs, ys := Placements(facts, nodes), Placements(facts, other);
    assert xs != [] ==> xs[0] in xs;
    assert ys != [] ==> ys[0] in ys;
    assert KeysOf(xs) == KeysOf(ys);
    forall k ensures Targets(TargetsFor(xs, k)) == Targets(TargetsFor(ys, k)) {
      forall t ensures t in TargetsFor(xs, k) <==> t in TargetsFor(ys, k) {
        TargetsForMembers(xs, k, t);
        TargetsForMembers(ys, k, t);
      }
    }
    hide Placements, TargetsFor, Resolvable, KeysOf;
    if xs != [] {
      assert WantedGroups(facts, nodes).value == WantedGroups(facts, other).value;
    }
  }

  /** A node whose provider id names the provider anywhere contributes each of its interfaces. */
  lemma YandexNodesContribute(facts: Facts, nodes: seq<Node>, n: Node, before: string, after: string, i: Interface)
    requires WantedGroups(facts, nodes).Some? && n in nodes && n.providerId == before + "yandex" + after
    requires n.name in facts.instances && i in facts.instances[n.name].interfaces
    ensures i.subnetId in facts.networks
    ensures var key := GroupKey(facts, n, facts.networks[i.subnetId]);
            && key in WantedGroups(facts, nodes).value
            && Target(i.subnetId, i.address) in WantedGroups(facts, nodes).value[key]
  {
    YandexIff(n);
    assert Resolvable(facts, nodes);
    var p := InstanceWithNode(facts.instances[n.name], n);
    assert KnownSubnets(facts, p) && i in p.instance.interfaces;
    var key := GroupKey(facts, n, facts.networks[i.subnetId]);
    hide WantedGroups, Resolvable, KnownSubnets, IsYandex, GroupKey;
    assert Contributes(facts, n, key, Target(i.subnetId, i.address));
    WantedMembers(facts, nodes, key, Target(i.subnetId, i.address));
  }

  // The syncer as a function of its calls

  ghost function NodeNames(nodes: seq<Node>): set<string> { set n | n in nodes :: n.name }

  /** One call: the nodes passed and whether the lister knows an active load balancer service. */
  datatype SyncCall = SyncCall(nodes: seq<Node>, active: bool)

  datatype SyncerState = SyncerState(groups: map<string, set<Target>>, last: set<string>)

  ghost function WithoutCluster(groups: map<string, set<Target>>, cluster: string): map<string, set<Target>> {
    map n | n in groups && !Contains(n, cluster) :: groups[n]
  }

  /** What a call does to the groups if the syncer never consults the nodes it visited last. */
  ghost function AlwaysStep(facts: Facts, groups: map<string, set<Target>>, call: SyncCall): map<string, set<Target>> {
    if call.nodes == [] && !call.active then WithoutCluster(groups, facts.clusterName)
    else if call.nodes == [] then groups
    else
      match WantedGroups(facts, call.nodes)
      case None => groups
      case Some(wanted) => groups + wanted
  }

  /** What the call really does. */
  ghost function CachedStep(facts: Facts, s: SyncerState, call: SyncCall): SyncerState {
    if call.nodes == [] && !call.active then SyncerState(WithoutCluster(s.groups, facts.clusterName), {})
    else if call.nodes == [] then s
    else if NodeNames(call.nodes) == s.last then s
    else
      match WantedGroups(facts, call.nodes)
      case None => s
      case Some(wanted) => SyncerState(s.groups + wanted, NodeNames(call.nodes))
  }

  ghost function AlwaysRun(facts: Facts, groups: map<string, set<Target>>,
                           calls: seq<SyncCall>): map<string, set<Target>>
    decreases |calls|
  {
    if calls == [] then groups else AlwaysRun(facts, AlwaysStep(facts, groups, calls[0]), calls[1..])
  }

  ghost function CachedRun(facts: Facts, s: SyncerState, calls: seq<SyncCall>): SyncerState
    decreases |calls|
  {
    if calls == [] then s else CachedRun(facts, CachedStep(facts, s, calls[0]), calls[1..])
  }

  /** A name stands for the same node throughout. */
  ghost predicate Registered(registry: map<string, Node>, nodes: seq<Node>) {
    forall n :: n in nodes ==> n.name in registry && registry[n.name] == n
  }

  lemma RegisteredByName(registry: map<string, Node>, nodes: seq<Node>, other: seq<Node>)
    requires Registered(registry, nodes) && Registered(registry, other) && NodeNames(nodes) == NodeNames(other)
    ensures forall n :: n in nodes <==> n in other
  {
    forall n | n in nodes ensures n in other { assert n.name in NodeNames(other); }
    forall n | n in other ensures n in nodes { assert n.name in NodeNames(nodes); }
  }

  /** The groups already are what a sync of these nodes would make them. */
  ghost predicate InPlace(facts: Facts, groups: map<string, set<Target>>, nodes: seq<Node>) {
    WantedGroups(facts, nodes).Some? && groups + WantedGroups(facts, nodes).value == groups
  }

  /** The remembered names are those of some nodes whose groups are in place. */
  ghost predicate CacheAgrees(facts: Facts, registry: map<string, Node>, s: SyncerState) {
    s.last != {} ==>
      exists nodes :: Registered(registry, nodes) && NodeNames(nodes) == s.last && InPlace(facts, s.groups, nodes)
  }

  lemma CachedStepAgrees(facts: Facts, registry: map<string, Node>, s: SyncerState, call: SyncCall)
    requires CacheAgrees(facts, registry, s) && Registered(registry, call.nodes)
    ensures CachedStep(facts, s, call).groups == AlwaysStep(facts, s.groups, call)
    ensures CacheAgrees(facts, registry, CachedStep(facts, s, call))
  {
    hide WantedGroups, WithoutCluster, Registered;
    if call.nodes != [] {
      assert call.nodes[0].name in NodeNames(call.nodes);
      if NodeNames(call.nodes) == s.last {
        var nodes :| Registered(registry, nodes) && NodeNames(nodes) == s.last && InPlace(facts, s.groups, nodes);
        RegisteredByName(registry, nodes, call.nodes);
        WantedDependsOnSet(facts, nodes, call.nodes);
      } else if WantedGroups(facts, call.nodes).Some? {
        var wanted := WantedGroups(facts, call.nodes).value;
        assert s.groups + wanted + wanted == s.groups + wanted;
        assert InPlace(facts, s.groups + wanted, call.nodes);
      }
    }
  }

  /** Over every sequence of undisturbed calls the syncer leaves the groups that a syncer without a
      memory would leave. */
  lemma {:induction false} CacheRefinement(facts: Facts, registry: map<string, Node>, s: SyncerState,
                                           calls: seq<SyncCall>)
    requires CacheAgrees(facts, registry, s)
    requires forall call :: call in calls ==> Registered(registry, call.nodes)
    ensures CachedRun(facts, s, calls).groups == AlwaysRun(facts, s.groups, calls)
    ensures CacheAgrees(facts, registry, CachedRun(facts, s, calls))
    decreases |calls|
  {
    if calls != [] {
      assert calls[0] in calls;
      CachedStepAgrees(facts, registry, s, calls[0]);
      CacheRefinement(facts, registry, CachedStep(facts, s, calls[0]), calls[1..]);
    }
  }

  /** What the nodes call for is in no other group than the one it is called for. */
  ghost predicate Undisputed(facts: Facts, nodes: seq<Node>, view: View) {
    WantedGroups(facts, nodes).Some? ==> AllClaimable(view, WantedGroups(facts, nodes).value)
  }

  // Calls that were cut short

  /** What a sync that was cut short made of the groups it touched: each holds what is wanted, but one may
      still hold what it held as well. */
  ghost predicate IsCut(view: map<string, set<Target>>, wanted: map<string, set<Target>>,
                        mid: map<string, set<Target>>) {
    && mid.Keys <= wanted.Keys
    && (forall k :: k in mid ==> mid[k] == wanted[k] || (k in view && mid[k] == view[k] + wanted[k]))
    && (forall j, k :: j in mid && k in mid && mid[j] != wanted[j] && mid[k] != wanted[k] ==> j == k)
  }

  ghost predicate CutSync(view: map<string, set<Target>>, wanted: map<string, set<Target>>,
                          now: map<string, set<Target>>) {
    exists mid :: IsCut(view, wanted, mid) && now == view + mid
  }

  /** What a clean-up that was cut short may have made of the groups: some of the cluster's are gone. */
  ghost predicate CutCleanUp(view: map<string, set<Target>>, now: map<string, set<Target>>, cluster: string) {
    && now.Keys <= view.Keys && (forall k :: k in now ==> now[k] == view[k])
    && forall k :: k in view && k !in now ==> Contains(k, cluster)
  }

  /** What any call may do to the groups, cut short or not. */
  ghost predicate Evolved(facts: Facts, nodes: seq<Node>, view: View, now: View) {
    || now == view
    || (WantedGroups(facts, nodes).Some? && CutSync(view, WantedGroups(facts, nodes).value, now))
    || CutCleanUp(view, now, facts.clusterName)
  }

  /** The state of a syncer that starts with these groups, once it has synced nodes a. */
  ghost function Synced(facts: Facts, groups: map<string, set<Target>>, a: seq<Node>): (s: SyncerState)
    requires a != [] && WantedGroups(facts, a).Some?
    ensures s == CachedStep(facts, SyncerState(groups, {}), SyncCall(a, true))
  {
    assert a[0].name in NodeNames(a);
    SyncerState(groups + WantedGroups(facts, a).value, NodeNames(a))
  }

  /** Whatever happened to the groups and to the nodes, a call for nodes of the remembered names is skipped,
      and that is right exactly if each group they call for now is there with the targets called for. */
  lemma SkippedIsRightIff(facts: Facts, now: map<string, set<Target>>, last: set<string>, b: seq<Node>)
    requires b != [] && NodeNames(b) == last && WantedGroups(facts, b).Some?
    ensures var wb, s, call := WantedGroups(facts, b).value, SyncerState(now, last), SyncCall(b, true);
            CachedStep(facts, s, call) == s
            && (s.groups == AlwaysStep(facts, s.groups, call) <==> forall k :: k in wb ==> k in now && now[k] == wb[k])
  {
    hide WantedGroups;
    var wb := WantedGroups(facts, b).value;
    if forall k :: k in wb ==> k in now && now[k] == wb[k] {
      assert now + wb == now;
    } else {
      var k :| k in wb && !(k in now && now[k] == wb[k]);
      assert (now + wb)[k] == wb[k];
    }
  }

  /** Nodes a are synced, other calls fail after touching some groups, and nodes a come back.  The call is
      skipped, and that is right exactly if each touched group that a calls for holds what a calls for. */
  lemma PartialSyncGoesStaleIff(facts: Facts, groups: map<string, set<Target>>, a: seq<Node>,
                                mid: map<string, set<Target>>)
    requires a != [] && WantedGroups(facts, a).Some?
    ensures var wa, again := WantedGroups(facts, a).value, SyncCall(a, true);
            var cut := SyncerState(Synced(facts, groups, a).groups + mid, Synced(facts, groups, a).last);
            CachedStep(facts, cut, again) == cut
            && (cut.groups == AlwaysStep(facts, cut.groups, again) <==>
                forall k :: k in mid && k in wa ==> wa[k] == mid[k])
  {
    var wa, now := WantedGroups(facts, a).value, Synced(facts, groups, a).groups + mid;
    SkippedIsRightIff(facts, now, NodeNames(a), a);
    hide WantedGroups, CachedStep, AlwaysStep;
    forall k | k in wa ensures k in now && (now[k] == wa[k] <==> (k in mid ==> wa[k] == mid[k])) { }
  }

  /** What that means for a sync of nodes b: a group it finished has to be the same for a and b, and the
      one it had only added to must not have got anything new. */
  lemma CutSyncGoesStaleIff(facts: Facts, groups: map<string, set<Target>>, a: seq<Node>, b: seq<Node>,
                            mid: map<string, set<Target>>)
    requires a != [] && WantedGroups(facts, a).Some? && WantedGroups(facts, b).Some?
    requires IsCut(Synced(facts, groups, a).groups, WantedGroups(facts, b).value, mid)
    ensures var wa, wb, again := WantedGroups(facts, a).value, WantedGroups(facts, b).value, SyncCall(a, true);
            var cut := SyncerState(Synced(facts, groups, a).groups + mid, Synced(facts, groups, a).last);
            CachedStep(facts, cut, again) == cut
            && (cut.groups == AlwaysStep(facts, cut.groups, again) <==>
                forall k :: k in mid && k in wa ==> if mid[k] == wb[k] then wa[k] == wb[k] else wb[k] <= wa[k])
  {
    PartialSyncGoesStaleIff(facts, groups, a, mid);
    hide WantedGroups, CachedStep, AlwaysStep;
    var wa, wb := WantedGroups(facts, a).value, WantedGroups(facts, b).value;
    forall k | k in mid && k in wa
      ensures wa[k] == mid[k] <==> if mid[k] == wb[k] then wa[k] == wb[k] else wb[k] <= wa[k]
    {
      assert Synced(facts, groups, a).groups[k] == wa[k];
    }
  }

  lemma WantedKeysContainCluster(facts: Facts, nodes: seq<Node>, k: string)
    requires WantedGroups(facts, nodes).Some? && k in WantedGroups(facts, nodes).value
    ensures Contains(k, facts.clusterName)
  {
    var n, t := WantedKeyIsContributed(facts, nodes, k);
    KeysContainCluster(facts, n, facts.networks[t.subnetId]);
  }

  /** A clean-up of this cluster leaves another cluster's groups in place exactly if none of the names that
      the other cluster's nodes call for contains the name of this one. */
  lemma OtherClusterSparedIff(facts: Facts, other: Facts, nodes: seq<Node>, view: View)
    requires InPlace(other, view, nodes)
    ensures InPlace(other, WithoutCluster(view, facts.clusterName), nodes) <==>
            forall n, k, t :: n in nodes && Contributes(other, n, k, t) ==> !Contains(k, facts.clusterName)
  {
    var wanted, left := WantedGroups(other, nodes).value, WithoutCluster(view, facts.clusterName);
    assert forall k :: k in wanted ==> k in view && (view + wanted)[k] == wanted[k];
    if InPlace(other, left, nodes) {
      forall n, k, t | n in nodes && Contributes(other, n, k, t) ensures !Contains(k, facts.clusterName) {
        WantedMembers(other, nodes, k, t);
        assert k in left + wanted;
      }
    }
    if forall n, k, t :: n in nodes && Contributes(other, n, k, t) ==> !Contains(k, facts.clusterName) {
      forall k | k in wanted ensures !Contains(k, facts.clusterName) {
        var n, t := WantedKeyIsContributed(other, nodes, k);
      }
      assert left + wanted == left;
    }
  }

  lemma WantedKeyIsContributed(facts: Facts, nodes: seq<Node>, k: string) returns (n: Node, t: Target)
    requires WantedGroups(facts, nodes).Some? && k in WantedGroups(facts, nodes).value
    ensures n in nodes && Contributes(facts, n, k, t)
  {
    var p :| p in Placements(facts, nodes) && p.key == k;
    PlacementsMembers(facts, nodes, p);
    n :| n in nodes && Contributes(facts, n, p.key, p.target);
    t := p.target;
  }

  /** Nodes a are synced, a clean-up fails after some groups are gone, and nodes a come back.  The call is
      skipped, and that is right exactly if none of the groups gone is one that a calls for, although a
      clean-up may take any of these. */
  lemma PartialCleanUpGoesStaleIff(facts: Facts, groups: map<string, set<Target>>, a: seq<Node>, gone: set<string>)
    requires a != [] && WantedGroups(facts, a).Some?
    requires forall n :: n in gone ==> Contains(n, facts.clusterName)
    ensures var wa, again, synced := WantedGroups(facts, a).value, SyncCall(a, true), Synced(facts, groups, a);
            var cut := SyncerState(synced.groups - gone, synced.last);
            && CutCleanUp(synced.groups, cut.groups, facts.clusterName)
            && CachedStep(facts, cut, again) == cut
            && (cut.groups == AlwaysStep(facts, cut.groups, again) <==> gone !! wa.Keys)
    ensures forall k :: k in WantedGroups(facts, a).value ==> Contains(k, facts.clusterName)
  {
    var wa := WantedGroups(facts, a).value;
    forall k | k in wa ensures Contains(k, facts.clusterName) { WantedKeysContainCluster(facts, a, k); }
    CutByRemoval(groups + wa, gone, facts.clusterName);
    SkippedIsRightIff(facts, groups + wa - gone, NodeNames(a), a);
    hide WantedGroups, Contains, CutCleanUp, CachedStep, AlwaysStep;
    forall k | k in wa ensures k in groups + wa - gone <==> k !in gone { }
  }

  lemma CutByRemoval(view: map<string, set<Target>>, gone: set<string>, cluster: string)
    requires forall n :: n in gone ==> Contains(n, cluster)
    ensures CutCleanUp(view, view - gone, cluster)
  {
    hide Contains;
  }

  /** Why names must stand for the same nodes and instances: nodes a are synced when the facts are those
      before, and come back as b, under the same names, when the facts are those after.  The call is
      skipped, and that is right exactly if b calls for nothing new. */
  lemma ChangedNodesUnnoticedIff(before: Facts, after: Facts, groups: map<string, set<Target>>, a: seq<Node>,
                                 b: seq<Node>)
    requires a != [] && NodeNames(a) == NodeNames(b) && WantedGroups(before, a).Some? && WantedGroups(after, b).Some?
    ensures var wa, wb := WantedGroups(before, a).value, WantedGroups(after, b).value;
            var synced := Synced(before, groups, a);
            CachedStep(after, synced, SyncCall(b, true)) == synced
            && (synced.groups == AlwaysStep(after, synced.groups, SyncCall(b, true))
                <==> forall k :: k in wb ==> if k in wa then wa[k] == wb[k] else k in groups && groups[k] == wb[k])
  {
    assert a[0].name in NodeNames(a);
    assert b != [] by { assert NodeNames([]) == {}; }
    SkippedIsRightIff(after, Synced(before, groups, a).groups, NodeNames(a), b);
    hide WantedGroups, CachedStep, AlwaysStep;
  }

  // Targets that would have to change groups

  /** A node called for target t under k when it was synced and now calls for it under j.  If none of the
      nodes calls for k any more, as when the node lost its prefix, then the cloud never takes t under j. */
  lemma LostPrefixBlocks(facts: Facts, view: View, before: seq<Node>, after: seq<Node>, m: Node, n: Node,
                         k: string, j: string, t: Target)
    requires InPlace(facts, view, before) && WantedGroups(facts, after).Some?
    requires m in before && Contributes(facts, m, k, t) && n in after && Contributes(facts, n, j, t)
    requires k !in WantedGroups(facts, after).value
    ensures Blocked(view, WantedGroups(facts, after).value, {j})
  {
    WantedMembers(facts, before, k, t);
    WantedMembers(facts, after, j, t);
    hide WantedGroups, Contributes, Blocked;
    InPlaceAt(facts, view, before, k);
    LeftBehindBlocks(view, WantedGroups(facts, after).value, j, k, t);
  }

  const TWO_NODES := Facts("c",
      map["a" := Instance([Interface("s", "1")]), "b" := Instance([Interface("s", "2")])],
      map["s" := "net"])
  const PREFIXED := Node("a", "yandex://a", map[PREFIX_ANNOTATION := "p"])
  const UNPREFIXED := Node("a", "yandex://a", map[])
  const NEWCOMER := Node("b", "yandex://b", map[])

  /** An input: node a is synced with a prefix and comes back without it, next to a new node. */
  lemma LostPrefixExample(view: View)
    requires InPlace(TWO_NODES, view, [PREFIXED])
    ensures WantedGroups(TWO_NODES, [UNPREFIXED, NEWCOMER]).Some?
    ensures Blocked(view, WantedGroups(TWO_NODES, [UNPREFIXED, NEWCOMER]).value, {"cnet"})
  {
    var after, t := [UNPREFIXED, NEWCOMER], Target("s", "1");
    YandexExample();
    assert PREFIXED in [PREFIXED] && Contributes(TWO_NODES, PREFIXED, "pcnet", t);
    assert UNPREFIXED in after && Contributes(TWO_NODES, UNPREFIXED, "cnet", t);
    assert Resolvable(TWO_NODES, after);
    PlacementsMembers(TWO_NODES, after, Placed("cnet", t));
    assert forall n :: n in after ==> GroupKey(TWO_NODES, n, "net") == "cnet";
    hide Contributes, WantedGroups, Blocked, InPlace, Resolvable;
    WantedUnderOne(TWO_NODES, after, "cnet", "net");
    LostPrefixBlocks(TWO_NODES, view, [PREFIXED], after, PREFIXED, UNPREFIXED, "pcnet", "cnet", t);
  }

  lemma WantedUnderOne(facts: Facts, nodes: seq<Node>, key: string, network: string)
    requires WantedGroups(facts, nodes).Some? && facts.networks.Values <= {network}
    requires forall n :: n in nodes ==> GroupKey(facts, n, network) == key
    ensures forall k :: k in WantedGroups(facts, nodes).value ==> k == key
  {
    forall k | k in WantedGroups(facts, nodes).value ensures k == key {
      var n, t := WantedKeyIsContributed(facts, nodes, k);
      assert facts.networks[t.subnetId] in facts.networks.Values;
    }
  }

  lemma YandexExample()
    ensures IsYandex(PREFIXED) && IsYandex(UNPREFIXED) && IsYandex(NEWCOMER)
  {
    assert MatchesAt("yandex://a", "yandex", 0) && MatchesAt("yandex://b", "yandex", 0);
  }

  /** Two nodes called for t under k and for u under j and now do so the other way round, as when they
      swapped their prefixes: each group waits for the other one for ever. */
  lemma SwappedPrefixesBlock(facts: Facts, view: View, before: seq<Node>, after: seq<Node>,
                             m: Node, n: Node, m': Node, n': Node, j: string, k: string, t: Target, u: Target)
    requires InPlace(facts, view, before) && WantedGroups(facts, after).Some? && j != k
    requires m in before && n in before && Contributes(facts, m, k, t) && Contributes(facts, n, j, u)
    requires m' in after && n' in after && Contributes(facts, m', j, t) && Contributes(facts, n', k, u)
    ensures Blocked(view, WantedGroups(facts, after).value, {j, k})
  {
    WantedMembers(facts, before, k, t);
    WantedMembers(facts, before, j, u);
    WantedMembers(facts, after, j, t);
    WantedMembers(facts, after, k, u);
    hide WantedGroups, Contributes, Blocked;
    InPlaceAt(facts, view, before, k);
    InPlaceAt(facts, view, before, j);
    SwappedBlock(view, WantedGroups(facts, after).value, j, k, t, u);
  }

  lemma InPlaceAt(facts: Facts, view: View, nodes: seq<Node>, k: string)
    requires InPlace(facts, view, nodes) && k in WantedGroups(facts, nodes).value
    ensures k in view && view[k] == WantedGroups(facts, nodes).value[k]
  {
    assert (view + WantedGroups(facts, nodes).value)[k] == view[k];
  }

  // Nodes of one registry

  /** Of all group names, only k is one under which a registered node calls for target t. */
  ghost predicate HomedAt(facts: Facts, registry: map<string, Node>, k: string, t: Target) {
    forall n, j :: n in registry.Values && Contributes(facts, n, j, t) ==> j == k
  }

  /** No target is called for under two group names, whichever of the registered nodes do. */
  ghost predicate PlacedOnce(facts: Facts, registry: map<string, Node>) {
    forall n, k, t :: n in registry.Values && Contributes(facts, n, k, t) ==> HomedAt(facts, registry, k, t)
  }

  /** What the registered nodes call for is in no other group than the one it is called for. */
  ghost predicate Homed(facts: Facts, registry: map<string, Node>, view: View) {
    forall k, t :: k in view && t in view[k] ==> HomedAt(facts, registry, k, t)
  }

  lemma WantedIsHomed(facts: Facts, registry: map<string, Node>, nodes: seq<Node>)
    requires Registered(registry, nodes) && PlacedOnce(facts, registry) && WantedGroups(facts, nodes).Some?
    ensures Homed(facts, registry, WantedGroups(facts, nodes).value)
  {
    var wanted := WantedGroups(facts, nodes).value;
    forall k, t | k in wanted && t in wanted[k] ensures HomedAt(facts, registry, k, t) {
      WantedMembers(facts, nodes, k, t);
      var m :| m in nodes && Contributes(facts, m, k, t);
      assert registry[m.name] in registry.Values;
    }
  }

  /** Registered nodes never dispute each other's targets. */
  lemma HomedIsUndisputed(facts: Facts, registry: map<string, Node>, nodes: seq<Node>, view: View)
    requires Registered(registry, nodes) && Homed(facts, registry, view)
    ensures Undisputed(facts, nodes, view)
  {
    if WantedGroups(facts, nodes).Some? {
      var wanted := WantedGroups(facts, nodes).value;
      forall j, k, t | j in wanted && k in view && k != j && t in wanted[j] ensures t !in view[k] {
        WantedMembers(facts, nodes, j, t);
        var n :| n in nodes && Contributes(facts, n, j, t);
        assert registry[n.name] in registry.Values;
        assert t in view[k] ==> HomedAt(facts, registry, k, t);
      }
    }
  }

  lemma CutStaysHomed(facts: Facts, registry: map<string, Node>, view: View, wanted: View, mid: View)
    requires Homed(facts, registry, view) && Homed(facts, registry, wanted) && IsCut(view, wanted, mid)
    ensures Homed(facts, registry, view + mid)
  {
    hide HomedAt;
    var now := view + mid;
    forall k, t | k in now && t in now[k] ensures HomedAt(facts, registry, k, t) {
      assert (k in view && t in view[k]) || (k in wanted && t in wanted[k]);
    }
  }

  /** No call of registered nodes, cut short or not, puts a target of theirs elsewhere. */
  lemma EvolvedStaysHomed(facts: Facts, registry: map<string, Node>, nodes: seq<Node>, view: View, now: View)
    requires Registered(registry, nodes) && PlacedOnce(facts, registry) && Homed(facts, registry, view)
    requires Evolved(facts, nodes, view, now)
    ensures Homed(facts, registry, now)
  {
    hide WantedGroups, HomedAt, Contains, IsCut, PlacedOnce, Registered;
    if WantedGroups(facts, nodes).Some? && CutSync(view, WantedGroups(facts, nodes).value, now) {
      var wanted := WantedGroups(facts, nodes).value;
      WantedIsHomed(facts, registry, nodes);
      var mid :| IsCut(view, wanted, mid) && now == view + mid;
      CutStaysHomed(facts, registry, view, wanted, mid);
    }
  }
}
