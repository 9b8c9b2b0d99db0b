/** Ensuring, updating and deleting the balancer of a service (pkg/cloudprovider/yandex/load_balancer.go). */
module Controller {
  import opened Seqs
  import opened Cloud
  import opened BalancerPlan
  import opened LoadBalancer
  import opened TargetGroupService
  import opened Grouping
  import opened GroupingLaws
  import opened Claims
  import opened Wanted
  import opened Services
  import opened Runs
  import opened Syncer

  /** The balancer that a service asks for once its group is known. */
  ghost function RequestFor(s: Service, groupId: Id): Balancer
    requires |s.ports| <= PORT_LIMIT
  {
    Requested(DefaultLoadBalancerName(s.uid), ListenersFor(s), [AttachedGroup(groupId, [s.healthCheck])])
  }

  function GroupNameOf(facts: Facts, s: Service): string {
    ServiceGroupName(facts, s.groupPrefix, s.groupNetwork)
  }

  lemma RequestIsValid(s: Service, groupId: Id)
    requires ValidPorts(s.ports) && |s.ports| <= PORT_LIMIT
    ensures ValidBalancer(RequestFor(s, groupId))
  {
    ValidPortsGiveValidListeners(s);
  }

  /** The balancer of the service is as asked for and attached to the group of that name. */
  ghost predicate Served(facts: Facts, c: CloudState, s: Service)
    requires |s.ports| <= PORT_LIMIT
  {
    exists g :: GroupsNamed(c, GroupNameOf(facts, s)) == {g} && Settled(c, RequestFor(s, g))
  }

  /** One of the listeners forwards the port to its node port. */
  ghost predicate HasForwarder(ls: seq<Listener>, p: ServicePort) {
    exists l :: l in ls && IsForwarder(l, p)
  }

  ghost predicate IsForwarder(l: Listener, p: ServicePort) {
    && l.port == p.port && l.targetPort == p.nodePort
    && (l.protocol.TCP? <==> p.protocol.ServiceTCP?) && (l.protocol.UDP? <==> p.protocol.ServiceUDP?)
  }

  /** The listener forwards one of the service's ports. */
  ghost predicate IsAskedFor(l: Listener, s: Service) {
    exists p :: p in s.ports && IsForwarder(l, p)
  }

  /** The balancer forwards exactly the ports of the service. */
  ghost predicate Forwards(b: Balancer, s: Service) {
    && |b.listeners| == |s.ports|
    && (forall p :: p in s.ports ==> HasForwarder(b.listeners, p))
    && (forall l :: l in b.listeners ==> IsAskedFor(l, s))
    && (s.ports != [] ==> (b.kind.Internal? <==> s.internal))
  }

  /** It is attached to the group of prefix, cluster and network only, with the health check of the service. */
  ghost predicate IsAttached(facts: Facts, c: CloudState, b: Balancer, s: Service) {
    && |b.attached| == 1
    && var a := b.attached[0];
    && a.groupId in c.groups && c.groups[a.groupId].name == s.groupPrefix + facts.clusterName + s.groupNetwork
    && a.healthChecks != [] && a.healthChecks[0].options.HttpOptions?
    && var x, y := a.healthChecks[0], s.healthCheck;
    && y.options.HttpOptions? && x.options.port == y.options.port && x.options.path == y.options.path
    && x.name == y.name && x.unhealthyThreshold == y.unhealthyThreshold && x.healthyThreshold == y.healthyThreshold
    && x.interval.seconds == y.interval.seconds && x.timeout.seconds == y.timeout.seconds
  }

  /** The one balancer of the service does both. */
  ghost predicate Published(facts: Facts, c: CloudState, s: Service) {
    exists id ::
      && BalancersNamed(c, DefaultLoadBalancerName(s.uid)) == {id}
      && Forwards(c.balancers[id], s) && IsAttached(facts, c, c.balancers[id], s)
  }

  /** The answer is the first listener of the one balancer. */
  ghost predicate Answered(c: CloudState, s: Service, r: Outcome) {
    exists id ::
      && BalancersNamed(c, DefaultLoadBalancerName(s.uid)) == {id}
      && (if c.balancers[id].listeners == [] then r.NoListener? else r == AddressOf(c.balancers[id].listeners[0]))
  }

  lemma ListenerOfPort(s: Service, l: Listener)
    requires |s.ports| <= PORT_LIMIT && HasListener(ListenersFor(s), l)
    ensures IsAskedFor(l, s)
  {
    var e :| e in ListenersFor(s) && e.protocol == l.protocol && e.port == l.port && e.targetPort == l.targetPort;
    var i :| 0 <= i < |s.ports| && ListenersFor(s)[i] == e;
    assert s.ports[i] in s.ports && IsForwarder(l, s.ports[i]);
  }

  lemma PortOfListener(s: Service, ls: seq<Listener>, p: ServicePort)
    requires |s.ports| <= PORT_LIMIT && Listening(ls, ListenersFor(s)) && p in s.ports
    ensures HasForwarder(ls, p)
  {
    var i :| 0 <= i < |s.ports| && s.ports[i] == p;
    var e := ListenerFor(s, i);
    assert ListenersFor(s)[i] == e && e in ListenersFor(s);
    assert HasListener(ls, e);
    var l :| l in ls && l.protocol == e.protocol && l.port == e.port && l.targetPort == e.targetPort;
    assert IsForwarder(l, p);
  }

  lemma AsManyListeners(s: Service, ls: seq<Listener>)
    requires |s.ports| <= PORT_LIMIT && Listening(ls, ListenersFor(s))
    ensures |ls| == |s.ports| && forall l :: l in ls ==> HasListener(ListenersFor(s), l)
  {
    hide HasListener;
  }

  lemma KindOfRequest(s: Service, g: Id)
    requires |s.ports| <= PORT_LIMIT
    ensures s.ports != [] ==> (RequestFor(s, g).kind.Internal? <==> s.internal)
  {
    if s.ports != [] { assert ListenersFor(s)[0] in ListenersFor(s) && ListenersFor(s)[0].internal == s.internal; }
  }

  lemma ListeningForwards(s: Service, b: Balancer, g: Id)
    requires |s.ports| <= PORT_LIMIT && Listening(b.listeners, ListenersFor(s)) && b.kind == RequestFor(s, g).kind
    ensures Forwards(b, s)
  {
    hide Listening, HasListener, RequestFor, HasForwarder, IsAskedFor, ListenersFor;
    KindOfRequest(s, g);
    AsManyListeners(s, b.listeners);
    forall p | p in s.ports ensures HasForwarder(b.listeners, p) { PortOfListener(s, b.listeners, p); }
    forall l | l in b.listeners ensures IsAskedFor(l, s) { ListenerOfPort(s, l); }
  }

  /** What is served is published, in plain fields. */
  lemma ServedIsPublished(facts: Facts, c: CloudState, s: Service)
    requires ValidCloud(c) && |s.ports| <= PORT_LIMIT && Served(facts, c, s) && s.healthCheck.options.HttpOptions?
    ensures Published(facts, c, s)
  {
    var g :| GroupsNamed(c, GroupNameOf(facts, s)) == {g} && Settled(c, RequestFor(s, g));
    assert g in GroupsNamed(c, GroupNameOf(facts, s));
    var asked := AttachedGroup(g, [s.healthCheck]);
    hide Settled, Listening, HasAttachment, Forwards, DefaultLoadBalancerName, ListenersFor;
    var id := SettledInFields(c, RequestFor(s, g));
    var b := c.balancers[id];
    ListeningForwards(s, b, g);
    assert b.attached[0] in b.attached && HasAttachment([asked], b.attached[0]);
    OnlyOneAlike(asked, b.attached[0]);
    assert IsAttached(facts, c, b, s);
  }

  lemma OnlyOneAlike(asked: AttachedGroup, a: AttachedGroup)
    requires HasAttachment([asked], a)
    ensures AttachedAlike(asked, a)
  {
  }

  /** Nothing but the environment can stand in the way: the ports are valid and not too many, the group
      is there, the names are not ambiguous and none is in the way. */
  ghost predicate Ready(facts: Facts, c: CloudState, s: Service) {
    && ValidPorts(s.ports) && |s.ports| <= 10
    && AtMostOne(BalancersNamed(c, DefaultLoadBalancerName(s.uid)))
    && exists g :: GroupsNamed(c, GroupNameOf(facts, s)) == {g} && Feasible(c, RequestFor(s, g))
  }

  /** Target t is an interface, in this network, of a Yandex node with this prefix. */
  ghost predicate Reaches(facts: Facts, n: Node, prefix: string, network: string, t: Target) {
    && IsYandex(n) && n.name in facts.instances && NodePrefix(n) == prefix
    && Interface(t.subnetId, t.address) in facts.instances[n.name].interfaces
    && t.subnetId in facts.networks && facts.networks[t.subnetId] == network
  }

  /** The balancer of the service is attached to exactly one group, and the targets of that group are
      exactly the interfaces, in the service's network, of the nodes with the service's prefix. */
  ghost predicate ServedBy(facts: Facts, c: CloudState, s: Service, nodes: seq<Node>) {
    exists id, g ::
      && BalancersNamed(c, DefaultLoadBalancerName(s.uid)) == {id}
      && |c.balancers[id].attached| == 1 && c.balancers[id].attached[0].groupId == g
      && HoldsReachable(facts, c, g, s, nodes)
  }

  ghost predicate OneNetworkLength(facts: Facts, s: Service) {
    forall x :: x in facts.networks ==> |facts.networks[x]| == |s.groupNetwork|
  }

  lemma ContributesIffReaches(facts: Facts, s: Service, n: Node, t: Target)
    requires OneNetworkLength(facts, s)
    ensures Contributes(facts, n, GroupNameOf(facts, s), t) <==> Reaches(facts, n, s.groupPrefix, s.groupNetwork, t)
  {
    if t.subnetId in facts.networks {
      var m := facts.networks[t.subnetId];
      GroupKeyIs(facts, n, m);
      if GroupKey(facts, n, m) == GroupNameOf(facts, s) {
        NameDeterminesParts(facts, NodePrefix(n), m, s.groupPrefix, s.groupNetwork);
      }
    }
  }

  lemma AttachedToOne(b: Balancer, d: Balancer)
    requires OneToOne(b, d) && |d.attached| == 1
    ensures |b.attached| == 1 && b.attached[0].groupId == d.attached[0].groupId
  {
    var xs, ys := Map(b.attached, AttachmentKeyOf), Map(d.attached, AttachmentKeyOf);
    assert |multiset(xs)| == |xs| && |multiset(ys)| == |ys|;
    assert xs[0] in multiset(ys);
  }

  /** The groups of a network are what the nodes call for, and the service's group is among them. */
  ghost predicate InLine(facts: Facts, c: CloudState, key: string, nodes: seq<Node>) {
    && WantedGroups(facts, nodes).Some? && key in WantedGroups(facts, nodes).value
    && key in GroupView(c) && GroupView(c)[key] == WantedGroups(facts, nodes).value[key]
  }

  /** The targets of group g are exactly the interfaces that the service can reach through it. */
  ghost predicate HoldsReachable(facts: Facts, c: CloudState, g: Id, s: Service, nodes: seq<Node>) {
    g in c.groups && forall t :: t in c.groups[g].targets <==>
      exists n :: n in nodes && Reaches(facts, n, s.groupPrefix, s.groupNetwork, t)
  }

  lemma GroupHoldsReachable(facts: Facts, c: CloudState, g: Id, s: Service, nodes: seq<Node>)
    requires UniqueGroups(c) && OneNetworkLength(facts, s) && g in c.groups && c.groups[g].name == GroupNameOf(facts, s)
    requires InLine(facts, c, GroupNameOf(facts, s), nodes)
    ensures HoldsReachable(facts, c, g, s, nodes)
  {
    hide WantedGroups, GroupView, GroupNameOf, Reaches, Contributes, OneNetworkLength, UniqueGroups;
    var key := GroupNameOf(facts, s);
    NamedIsView(c, g);
    forall t
      ensures t in c.groups[g].targets <==>
              exists n :: n in nodes && Reaches(facts, n, s.groupPrefix, s.groupNetwork, t)
    {
      assert t in c.groups[g].targets <==> t in GroupView(c)[key];
      WantedMembers(facts, nodes, key, t);
      forall n ensures Contributes(facts, n, key, t) <==> Reaches(facts, n, s.groupPrefix, s.groupNetwork, t) {
        ContributesIffReaches(facts, s, n, t);
      }
    }
  }

  lemma SettledIsAttached(facts: Facts, c: CloudState, s: Service, g: Id) returns (id: Id)
    requires |s.ports| <= PORT_LIMIT && Settled(c, RequestFor(s, g))
    ensures BalancersNamed(c, DefaultLoadBalancerName(s.uid)) == {id} && id in c.balancers
    ensures |c.balancers[id].attached| == 1 && c.balancers[id].attached[0].groupId == g
  {
    hide OneToOne, Matches, DefaultLoadBalancerName;
    var d := RequestFor(s, g);
    id :| BalancersNamed(c, d.name) == {id} && Matches(c.balancers[id], d) && OneToOne(c.balancers[id], d);
    assert id in BalancersNamed(c, d.name);
    AttachedToOne(c.balancers[id], d);
  }

  /** From the parts to the whole: a settled balancer on a group that is in line with the nodes. */
  lemma ServedExactly(facts: Facts, c: CloudState, s: Service, nodes: seq<Node>)
    requires UniqueGroups(c) && |s.ports| <= PORT_LIMIT && Served(facts, c, s) && OneNetworkLength(facts, s)
    requires InLine(facts, c, GroupNameOf(facts, s), nodes)
    ensures ServedBy(facts, c, s, nodes)
  {
    hide Settled, UniqueGroups, OneNetworkLength, InLine, RequestFor, GroupNameOf, DefaultLoadBalancerName;
    var g :| GroupsNamed(c, GroupNameOf(facts, s)) == {g} && Settled(c, RequestFor(s, g));
    assert g in GroupsNamed(c, GroupNameOf(facts, s));
    GroupHoldsReachable(facts, c, g, s, nodes);
    var id := SettledIsAttached(facts, c, s, g);
  }

  /** Nothing about the service or its balancer stands in the way, whatever its group will be. */
  ghost predicate Unblocked(c: CloudState, s: Service) {
    && ValidPorts(s.ports) && |s.ports| <= 10
    && AtMostOne(BalancersNamed(c, DefaultLoadBalancerName(s.uid)))
    && forall g :: Feasible(c, RequestFor(s, g))
  }

  lemma UnblockedIsReady(facts: Facts, c: CloudState, mid: CloudState, s: Service, nodes: seq<Node>)
    requires Unblocked(c, s) && mid.balancers == c.balancers && UniqueGroups(mid)
    requires InLine(facts, mid, GroupNameOf(facts, s), nodes)
    ensures Ready(facts, mid, s)
  {
    hide WantedGroups, GroupNameOf, DefaultLoadBalancerName, NamesFree, RequestFor, TargetsNamed;
    var key := GroupNameOf(facts, s);
    assert key in GroupNames(mid);
    var g :| g in mid.groups && mid.groups[g].name == key;
    NamedIsView(mid, g);
    assert BalancersNamed(mid, DefaultLoadBalancerName(s.uid)) == BalancersNamed(c, DefaultLoadBalancerName(s.uid));
    forall id | id in BalancersNamed(mid, RequestFor(s, g).name)
      ensures id in BalancersNamed(c, RequestFor(s, g).name)
    {
    }
    assert Feasible(c, RequestFor(s, g));
    assert Feasible(mid, RequestFor(s, g));
  }

  /** The nodes call for a group of this name. */
  ghost predicate CalledFor(facts: Facts, nodes: seq<Node>, key: string) {
    WantedGroups(facts, nodes).Some? && key in WantedGroups(facts, nodes).value
  }

  /** If a sync of these nodes would be skipped, then rightly so: the remembered names are those of the
      same nodes, and no call was cut short since they were synced. */
  ghost predicate Trusted(nodes: seq<Node>, cached: set<string>, cachedNodes: seq<Node>, settled: bool) {
    NodeNames(nodes) == cached ==> settled && forall n :: n in nodes <==> n in cachedNodes
  }

  lemma SkippedIsInLine(facts: Facts, c: CloudState, nodes: seq<Node>, cachedNodes: seq<Node>, key: string)
    requires CalledFor(facts, nodes, key) && InPlace(facts, GroupView(c), cachedNodes)
    requires forall n :: n in nodes <==> n in cachedNodes
    ensures InLine(facts, c, key, nodes)
  {
    hide WantedGroups, GroupView;
    WantedDependsOnSet(facts, nodes, cachedNodes);
  }

  lemma AppliedIsInLine(facts: Facts, c: CloudState, after: CloudState, nodes: seq<Node>, key: string)
    requires CalledFor(facts, nodes, key) && GroupView(after) == GroupView(c) + WantedGroups(facts, nodes).value
    ensures InLine(facts, after, key, nodes)
  {
    hide WantedGroups, GroupView;
  }

  lemma SyncedIsInLine(facts: Facts, c: CloudState, after: CloudState, nodes: seq<Node>,
                       cached: set<string>, cachedNodes: seq<Node>, settled: bool, key: string)
    requires nodes != [] && CalledFor(facts, nodes, key) && Trusted(nodes, cached, cachedNodes, settled)
    requires settled && cachedNodes != [] ==> InPlace(facts, GroupView(c), cachedNodes)
    requires NodeNames(nodes) != cached ==> GroupView(after) == GroupView(c) + WantedGroups(facts, nodes).value
    requires NodeNames(nodes) == cached ==> after == c
    ensures InLine(facts, after, key, nodes)
  {
    hide GroupView, WantedGroups, InPlace, InLine, CalledFor;
    if NodeNames(nodes) == cached {
      assert nodes[0] in cachedNodes;
      SkippedIsInLine(facts, c, nodes, cachedNodes, key);
    } else {
      AppliedIsInLine(facts, c, after, nodes, key);
    }
  }

  lemma StretchIs(c: CloudState, done: seq<Request>, after: CloudState, sc: Scope)
    requires Stretch(c, done, after, sc)
    ensures Performed(c, done, after) && LawfulRun(c, done, sc) && GroupRequests(done)
    ensures UniqueGroups(after) && after.balancers == c.balancers
  {
  }

  lemma EnsuredIsServed(facts: Facts, mid: CloudState, c: CloudState, s: Service, nodes: seq<Node>)
    requires c.groups == mid.groups && UniqueGroups(mid) && |s.ports| <= PORT_LIMIT && Served(facts, c, s)
    ensures OneNetworkLength(facts, s) && InLine(facts, mid, GroupNameOf(facts, s), nodes) ==>
              ServedBy(facts, c, s, nodes)
  {
    hide UniqueGroups, OneNetworkLength, GroupView, WantedGroups, Served, GroupNameOf, ServedBy;
    SameGroupsSameView(mid, c);
    if OneNetworkLength(facts, s) && InLine(facts, mid, GroupNameOf(facts, s), nodes) {
      ServedExactly(facts, c, s, nodes);
    }
  }

  /** The scope of a call for service s. */
  ghost function ScopeOf(facts: Facts, s: Service, services: seq<Service>): Scope {
    Scope(DefaultLoadBalancerName(s.uid), ActiveNames(services), facts.clusterName)
  }

  class CloudProvider {
    const api: CloudApi
    const facts: Facts
    const syncer: NodeTargetGroupSyncer

    ghost predicate Valid()
      reads this, api, syncer
    {
      syncer.api == api && syncer.facts == facts && syncer.Valid()
    }

    constructor (api: CloudApi, facts: Facts)
      requires Tidy(api.state) && PlainFacts(facts)
      ensures Valid() && this.api == api && this.facts == facts && fresh(syncer)
      ensures syncer.lastVisitedNodes == {} && syncer.lastNodes == [] && syncer.settled
    {
      this.api, this.facts := api, facts;
      this.syncer := new NodeTargetGroupSyncer(api, facts);
    }

    method EnsureLB(service: Service, nodes: seq<Node>, services: seq<Service>)
      returns (r: Outcome, ghost done: seq<Request>)
      requires Valid() && service.healthCheck.options.HttpOptions?
      modifies api
      ensures Valid() && api.faults >= old(api.faults) && api.state.groups == old(api.state).groups
      ensures syncer.Snapshot() == old(syncer.Snapshot()).(faults := api.faults)
      ensures Performed(old(api.state), done, api.state)
      ensures LawfulRun(old(api.state), done, ScopeOf(facts, service, services))
      ensures forall owned :: HonestPhase(old(api.state), done, owned, ScopeOf(facts, service, services))
      ensures !r.Error? ==> |service.ports| <= 10 && nodes != []
      ensures !r.Error? && ValidPorts(service.ports) ==>
                && Served(facts, api.state, service) && (r.NoListener? ==> service.ports == [])
                && Published(facts, api.state, service) && Answered(api.state, service, r)
      ensures GroupsNamed(old(api.state), GroupNameOf(facts, service)) == {} ==> r.Error? && api.state == old(api.state)
      ensures api.faults == old(api.faults) && nodes != [] && Ready(facts, old(api.state), service) ==> !r.Error?
    {
      done := [];
      if |service.ports| > PORT_LIMIT {
        return Error, [];
      }
      if |nodes| == 0 {
        return Error, [];
      }
      var listenerSpecs := ListenerSpecs(service);
      var tgName := service.groupPrefix + facts.clusterName + service.groupNetwork;
      var found := GetTgByName(api, tgName);
      if !found.LookedUp? || found.id.None? {
        return Error, [];
      }
      r, done := AttachLB(service, listenerSpecs, found.id.value, services);
    }

    /** The last part of EnsureLB, once the group is found. */
    method AttachLB(service: Service, listenerSpecs: seq<Listener>, tg: Id, ghost services: seq<Service>)
      returns (r: Outcome, ghost done: seq<Request>)
      requires Valid() && service.healthCheck.options.HttpOptions? && |service.ports| <= PORT_LIMIT
      requires listenerSpecs == ListenersFor(service) && GroupsNamed(api.state, GroupNameOf(facts, service)) == {tg}
      modifies api
      ensures Valid() && api.faults >= old(api.faults) && api.state.groups == old(api.state).groups
      ensures syncer.Snapshot() == old(syncer.Snapshot()).(faults := api.faults)
      ensures Performed(old(api.state), done, api.state)
      ensures LawfulRun(old(api.state), done, ScopeOf(facts, service, services))
      ensures forall owned :: HonestPhase(old(api.state), done, owned, ScopeOf(facts, service, services))
      ensures !r.Error? && ValidPorts(service.ports) ==>
                && Served(facts, api.state, service) && (r.NoListener? ==> service.ports == [])
                && Published(facts, api.state, service) && Answered(api.state, service, r)
      ensures api.faults == old(api.faults) && Ready(facts, old(api.state), service) ==> !r.Error?
    {
      ghost var c, d := api.state, RequestFor(service, tg);
      hide Plan, PassResult, Settled, InPlace, Tidy, Feasible;
      TidyIsValid(c);
      ghost var k;
      r, k := CreateOrUpdateLB(api, DefaultLoadBalancerName(service.uid), listenerSpecs,
                              [AttachedGroup(tg, [service.healthCheck])]);
      done := [];
      if AtMostOne(BalancersNamed(c, d.name)) {
        done := Plan(c, d)[..k];
        assert tg in GroupsNamed(c, GroupNameOf(facts, service));
        PassIsPhase(c, d, k, api.state, ScopeOf(facts, service, services));
        PassServes(facts, service, tg, c, k, api.state, r, api.faults == old(api.faults));
        if !r.Error? && ValidPorts(service.ports) { ServedIsPublished(facts, api.state, service); }
      }
      SameGroupsSameView(c, api.state);
    }

    /** Sync the groups, then the balancer.  If the nodes' names are the remembered ones, the sync is
        skipped, and the groups are in line provided nothing was cut short since. */
    method EnsureLoadBalancer(service: Service, nodes: seq<Node>, services: seq<Service>)
      returns (r: Outcome, ghost done: seq<Request>)
      requires Valid() && service.healthCheck.options.HttpOptions?
      modifies api, syncer
      ensures Valid() && api.faults >= old(api.faults)
      ensures Performed(old(api.state), done, api.state)
      ensures LawfulRun(old(api.state), done, ScopeOf(facts, service, services))
      ensures forall owned :: OwnersActive(old(api.state), owned, ScopeOf(facts, service, services)) ==>
                HonestPhase(old(api.state), done, owned, ScopeOf(facts, service, services))
      ensures !r.Error? && ValidPorts(service.ports) ==>
                && |service.ports| <= 10 && nodes != [] && Served(facts, api.state, service)
                && (r.NoListener? ==> service.ports == [])
                && Published(facts, api.state, service) && Answered(api.state, service, r)
      ensures !r.Error? && ValidPorts(service.ports) && OneNetworkLength(facts, service)
              && CalledFor(facts, nodes, GroupNameOf(facts, service))
              && Trusted(nodes, old(syncer.lastVisitedNodes), old(syncer.lastNodes), old(syncer.settled))
              ==> ServedBy(facts, api.state, service, nodes)
      ensures Quiet(facts, nodes, old(syncer.Snapshot()), syncer.Snapshot())
              && nodes != [] && Unblocked(old(api.state), service)
              && CalledFor(facts, nodes, GroupNameOf(facts, service))
              && Trusted(nodes, old(syncer.lastVisitedNodes), old(syncer.lastNodes), old(syncer.settled))
              ==> !r.Error?
      ensures nodes != [] && NodeNames(nodes) == old(syncer.lastVisitedNodes)
              && GroupsNamed(old(api.state), GroupNameOf(facts, service)) == {}
              ==> r.Error? && api.state == old(api.state) && syncer.lastVisitedNodes == old(syncer.lastVisitedNodes)
      ensures Orderly(facts, nodes, old(syncer.Snapshot()), syncer.Snapshot())
      ensures StaysSettled(old(syncer.Snapshot()), syncer.Snapshot(), !r.Error?)
    {
      ghost var c, sc, start := api.state, ScopeOf(facts, service, services), syncer.Snapshot();
      hide *;
      var ok;
      ok, done := SyncFirst(nodes, service, services);
      if !ok {
        return Error, done;
      }
      ghost var mid, first, synced := api.state, done, syncer.Snapshot();
      ghost var more;
      if Unblocked(c, service) && InLine(facts, mid, GroupNameOf(facts, service), nodes) {
        UnblockedIsReady(facts, c, mid, service, nodes);
      }
      r, more := EnsureLB(service, nodes, services);
      done := first + more;
      JoinPhases(c, first, mid, more, api.state, sc);
      OrderlyAfterwards(facts, nodes, start, synced, api.faults);
      SettledAfterwards(start, synced, api.faults, !r.Error?);
      if !r.Error? && ValidPorts(service.ports) {
        EnsuredIsServed(facts, mid, api.state, service, nodes);
      }
    }

    /** The sync at the beginning of the call. */
    method SyncFirst(nodes: seq<Node>, service: Service, services: seq<Service>)
      returns (ok: bool, ghost done: seq<Request>)
      requires Valid()
      modifies api, syncer
      ensures Valid() && api.faults >= old(api.faults)
      ensures UniqueGroups(api.state) && api.state.balancers == old(api.state).balancers
      ensures Quiet(facts, nodes, old(syncer.Snapshot()), syncer.Snapshot())
              && CalledFor(facts, nodes, GroupNameOf(facts, service))
              ==> ok
      ensures Orderly(facts, nodes, old(syncer.Snapshot()), syncer.Snapshot())
      ensures StaysSettled(old(syncer.Snapshot()), syncer.Snapshot(), ok)
      ensures Performed(old(api.state), done, api.state)
      ensures LawfulRun(old(api.state), done, ScopeOf(facts, service, services))
      ensures forall owned :: OwnersActive(old(api.state), owned, ScopeOf(facts, service, services)) ==>
                HonestPhase(old(api.state), done, owned, ScopeOf(facts, service, services))
      ensures ok && nodes != [] && CalledFor(facts, nodes, GroupNameOf(facts, service))
              && Trusted(nodes, old(syncer.lastVisitedNodes), old(syncer.lastNodes), old(syncer.settled))
              ==> InLine(facts, api.state, GroupNameOf(facts, service), nodes)
      ensures nodes != [] && NodeNames(nodes) == old(syncer.lastVisitedNodes) ==>
                api.state == old(api.state) && syncer.lastVisitedNodes == old(syncer.lastVisitedNodes)
    {
      ghost var c, sc := api.state, ScopeOf(facts, service, services);
      ghost var key := GroupNameOf(facts, service);
      ghost var cached, cachedNodes, settled := syncer.lastVisitedNodes, syncer.lastNodes, syncer.settled;
      hide GroupView, WantedGroups, InPlace, GroupNameOf, DefaultLoadBalancerName, ActiveNames, KeepsGroups, PlainFacts,
        Tidy, Stretch, InLine, CachedStep, NodeNames, Trusted, UniqueTargets, WithoutCluster;
      ok, done := syncer.SyncTGs(nodes, services, sc);
      StretchIs(c, done, api.state, sc);
      forall owned | OwnersActive(c, owned, sc)
        ensures HonestPhase(c, done, owned, sc)
      {
        SyncIsHonest(c, done, owned, sc);
      }
      if ok && nodes != [] && CalledFor(facts, nodes, key) && Trusted(nodes, cached, cachedNodes, settled) {
        SyncedIsInLine(facts, c, api.state, nodes, cached, cachedNodes, settled, key);
      }
    }

    method UpdateLoadBalancer(service: Service, nodes: seq<Node>, services: seq<Service>)
      returns (ok: bool, ghost done: seq<Request>)
      requires Valid() && service.healthCheck.options.HttpOptions?
      modifies api, syncer
      ensures Valid() && api.faults >= old(api.faults)
      ensures Performed(old(api.state), done, api.state)
      ensures LawfulRun(old(api.state), done, ScopeOf(facts, service, services))
      ensures forall owned :: OwnersActive(old(api.state), owned, ScopeOf(facts, service, services)) ==>
                HonestPhase(old(api.state), done, owned, ScopeOf(facts, service, services))
      ensures ok && ValidPorts(service.ports) ==>
                && |service.ports| <= 10 && nodes != [] && Served(facts, api.state, service)
                && Published(facts, api.state, service)
      ensures ok && ValidPorts(service.ports) && OneNetworkLength(facts, service)
              && CalledFor(facts, nodes, GroupNameOf(facts, service))
              && Trusted(nodes, old(syncer.lastVisitedNodes), old(syncer.lastNodes), old(syncer.settled))
              ==> ServedBy(facts, api.state, service, nodes)
      ensures Quiet(facts, nodes, old(syncer.Snapshot()), syncer.Snapshot())
              && nodes != [] && Unblocked(old(api.state), service)
              && CalledFor(facts, nodes, GroupNameOf(facts, service))
              && Trusted(nodes, old(syncer.lastVisitedNodes), old(syncer.lastNodes), old(syncer.settled))
              ==> ok
      ensures nodes != [] && NodeNames(nodes) == old(syncer.lastVisitedNodes)
              && GroupsNamed(old(api.state), GroupNameOf(facts, service)) == {}
              ==> !ok && api.state == old(api.state) && syncer.lastVisitedNodes == old(syncer.lastVisitedNodes)
      ensures Orderly(facts, nodes, old(syncer.Snapshot()), syncer.Snapshot())
      ensures StaysSettled(old(syncer.Snapshot()), syncer.Snapshot(), ok)
    {
      var r;
      r, done := EnsureLoadBalancer(service, nodes, services);
      ok := !r.Error?;
    }

    /** Delete the balancer, then sync without nodes, which cleans up after the last active service. */
    method EnsureLoadBalancerDeleted(service: Service, services: seq<Service>)
      returns (ok: bool, ghost done: seq<Request>)
      requires Valid()
      modifies api, syncer
      ensures Valid() && api.faults >= old(api.faults)
      ensures Performed(old(api.state), done, api.state)
      ensures LawfulRun(old(api.state), done, ScopeOf(facts, service, services))
      ensures forall owned :: OthersActive(old(api.state), owned, ScopeOf(facts, service, services)) ==>
                HonestPhase(old(api.state), done, owned, ScopeOf(facts, service, services))
      ensures ok ==> BalancersNamed(api.state, DefaultLoadBalancerName(service.uid)) == {}
      ensures ok && ActiveNames(services) != {} ==> api.state.groups == old(api.state).groups
      ensures ok && ActiveNames(services) == {} && |old(api.state).groups.Keys| <= 1000 ==>
                GroupView(api.state) == WithoutCluster(GroupView(old(api.state)), facts.clusterName)
                && NoGroupLeft(facts, GroupView(api.state))
      ensures ok && ActiveNames(services) == {} ==> syncer.lastVisitedNodes == {}
      ensures (exists s :: s in services && s.isLoadBalancer && !s.deleting) ==>
                api.state.groups == old(api.state).groups
      ensures ok && (forall s :: s in services ==> !s.isLoadBalancer || s.deleting) ==>
                && syncer.lastVisitedNodes == {}
                && (|old(api.state).groups.Keys| <= 1000 ==>
                      forall id :: id in api.state.groups ==> !Contains(api.state.groups[id].name, facts.clusterName))
      ensures !ok ==> syncer.lastVisitedNodes == old(syncer.lastVisitedNodes)
      ensures ok || api.state.groups == old(api.state).groups
              || CutCleanUp(GroupView(old(api.state)), GroupView(api.state), facts.clusterName)
      ensures Orderly(facts, [], old(syncer.Snapshot()), syncer.Snapshot())
      ensures StaysSettled(old(syncer.Snapshot()), syncer.Snapshot(), ok)
      ensures ok ==> syncer.lastNodes == [] || ActiveNames(services) != {}
      ensures api.faults == old(api.faults)
              && AtMostOne(BalancersNamed(old(api.state), DefaultLoadBalancerName(service.uid)))
              ==> ok
    {
      ghost var c := api.state;
      ghost var sc, start := ScopeOf(facts, service, services), syncer.Snapshot();
      ActiveIffListed(services);
      hide GroupView, NoGroupLeft, CutCleanUp, WithoutCluster, Contains, Orderly;
      ok, done := RemoveLBByName(api, DefaultLoadBalancerName(service.uid));
      DeletionIsLawful(c, done, api.state, sc);
      SameGroupsSameView(c, api.state);
      ghost var asked := api.faults;
      NothingIsOrderly(facts, [], start, asked);
      if !ok {
        return;
      }
      ghost var mid, first := api.state, done;
      ghost var more;
      ok, more := SyncLast(service, services);
      OrderlySince(facts, [], start, asked, syncer.Snapshot());
      done := first + more;
      forall owned | OthersActive(c, owned, sc) ensures HonestPhase(mid, more, owned, sc) {
        OnlyOthersLeft(mid, owned, sc);
      }
      JoinPhases(c, first, mid, more, api.state, sc);
    }

    /** The sync at the end of a deletion. */
    method SyncLast(service: Service, services: seq<Service>) returns (ok: bool, ghost done: seq<Request>)
      requires Valid()
      modifies api, syncer
      ensures Valid() && api.faults >= old(api.faults) && api.state.balancers == old(api.state).balancers
      ensures Performed(old(api.state), done, api.state)
      ensures LawfulRun(old(api.state), done, ScopeOf(facts, service, services))
      ensures forall owned :: OwnersActive(old(api.state), owned, ScopeOf(facts, service, services)) ==>
                HonestPhase(old(api.state), done, owned, ScopeOf(facts, service, services))
      ensures ActiveNames(services) != {} ==> api.state == old(api.state)
      ensures ok && ActiveNames(services) == {} ==> syncer.lastVisitedNodes == {} && syncer.lastNodes == []
      ensures ok && ActiveNames(services) == {} && |old(api.state).groups.Keys| <= 1000 ==>
                && GroupView(api.state) == WithoutCluster(GroupView(old(api.state)), facts.clusterName)
                && NoGroupLeft(facts, GroupView(api.state))
                && forall id :: id in api.state.groups ==> !Contains(api.state.groups[id].name, facts.clusterName)
      ensures !ok ==> syncer.lastVisitedNodes == old(syncer.lastVisitedNodes)
      ensures ok || api.state == old(api.state)
              || CutCleanUp(GroupView(old(api.state)), GroupView(api.state), facts.clusterName)
      ensures Orderly(facts, [], old(syncer.Snapshot()), syncer.Snapshot())
      ensures StaysSettled(old(syncer.Snapshot()), syncer.Snapshot(), ok)
      ensures api.faults == old(api.faults) ==> ok
    {
      ghost var c, sc := api.state, ScopeOf(facts, service, services);
      hide GroupView, WantedGroups, InPlace, DefaultLoadBalancerName, ActiveNames, KeepsGroups, PlainFacts, Tidy,
        Stretch, CachedStep, NodeNames, UniqueTargets, WithoutCluster, NoGroupLeft, Contains, CutCleanUp, Orderly,
        Quiet;
      ActiveIffListed(services);
      ok, done := syncer.SyncTGs([], services, sc);
      StretchIs(c, done, api.state, sc);
      forall owned | OwnersActive(c, owned, sc) ensures HonestPhase(c, done, owned, sc) {
        SyncIsHonest(c, done, owned, sc);
      }
    }
  }

  // Runs of calls

  /** The calls that the service controller makes, one at a time. */
  datatype Call =
    | Ensure(service: Service, nodes: seq<Node>, services: seq<Service>)
    | Update(service: Service, nodes: seq<Node>, services: seq<Service>)
    | Delete(service: Service, services: seq<Service>)

  function NodesOf(call: Call): seq<Node> { if call.Delete? then [] else call.nodes }

  /** A call with nodes of the registry. */
  ghost predicate IsCall(registry: map<string, Node>, call: Call) {
    Registered(registry, NodesOf(call)) && call.service.healthCheck.options.HttpOptions?
  }

  /** What a call that succeeds is for: the service is served exactly from its nodes, or its balancer gone. */
  ghost predicate Achieved(facts: Facts, call: Call, after: CloudState) {
    if call.Delete? then
      BalancersNamed(after, DefaultLoadBalancerName(call.service.uid)) == {}
    else
      ValidPorts(call.service.ports) ==>
        && Published(facts, after, call.service)
        && (CalledFor(facts, call.nodes, GroupNameOf(facts, call.service)) && OneNetworkLength(facts, call.service)
            ==> ServedBy(facts, after, call.service, call.nodes))
  }

  /** Nothing about the service itself is in the way of the call. */
  ghost predicate Possible(facts: Facts, call: Call, before: CloudState) {
    if call.Delete? then
      AtMostOne(BalancersNamed(before, DefaultLoadBalancerName(call.service.uid)))
    else
      && call.nodes != [] && CalledFor(facts, call.nodes, GroupNameOf(facts, call.service))
      && Unblocked(before, call.service)
  }

  /** No call was cut short since the remembered nodes were synced, and they are nodes of the registry. */
  ghost predicate Recalled(registry: map<string, Node>, m: Memory) {
    m.settled && Registered(registry, m.lastNodes)
  }

  lemma FreshIsRecalled(registry: map<string, Node>, m: Memory)
    requires m.settled && m.lastNodes == []
    ensures Recalled(registry, m)
  {
  }

  lemma RecalledStays(facts: Facts, registry: map<string, Node>, call: Call, before: Memory, after: Memory, ok: bool)
    requires IsCall(registry, call) && Orderly(facts, NodesOf(call), before, after) && StaysSettled(before, after, ok)
    ensures Recalled(registry, before) && (ok || after.view == before.view) ==> Recalled(registry, after)
    ensures NodeNames(after.lastNodes) != NodeNames(before.lastNodes) ==>
              Recalled(registry, after) && NodeNames(NodesOf(call)) != NodeNames(before.lastNodes)
  {
    hide Registered, Evolved, Quiet;
  }

  lemma RecalledIsTrusted(registry: map<string, Node>, call: Call, m: Memory)
    requires IsCall(registry, call) && Recalled(registry, m)
    ensures Trusted(NodesOf(call), NodeNames(m.lastNodes), m.lastNodes, m.settled)
  {
    if NodeNames(NodesOf(call)) == NodeNames(m.lastNodes) {
      RegisteredByName(registry, NodesOf(call), m.lastNodes);
    }
  }

  lemma NewIsTrusted(call: Call, m: Memory)
    ensures NodeNames(NodesOf(call)) != NodeNames(m.lastNodes) ==>
              Trusted(NodesOf(call), NodeNames(m.lastNodes), m.lastNodes, m.settled)
  {
  }

  /** Besides, no target of a registered node is in a group that is not its own, so that no call has to
      wait for a group to give one up. */
  ghost predicate Steady(facts: Facts, registry: map<string, Node>, m: Memory) {
    Recalled(registry, m) && Homed(facts, registry, m.view)
  }

  lemma SteadyIsQuiet(facts: Facts, registry: map<string, Node>, call: Call, before: Memory, after: Memory)
    requires IsCall(registry, call) && UniqueTargets(facts, NodesOf(call))
    requires Steady(facts, registry, before) && after.faults == before.faults
    ensures Quiet(facts, NodesOf(call), before, after)
  {
    HomedIsUndisputed(facts, registry, NodesOf(call), before.view);
  }

  lemma SteadyStays(facts: Facts, registry: map<string, Node>, call: Call, before: Memory, after: Memory)
    requires IsCall(registry, call) && UniqueTargets(facts, NodesOf(call))
    requires PlacedOnce(facts, registry) && Steady(facts, registry, before)
    requires Orderly(facts, NodesOf(call), before, after) && after.faults == before.faults
    ensures Steady(facts, registry, after)
  {
    SteadyIsQuiet(facts, registry, call, before, after);
    EvolvedStaysHomed(facts, registry, NodesOf(call), before.view, after.view);
  }

  /** One call of a run. */
  method ServeOne(provider: CloudProvider, call: Call, ghost registry: map<string, Node>) returns (ok: bool)
    requires provider.Valid() && IsCall(registry, call)
    modifies provider.api, provider.syncer
    ensures provider.Valid() && provider.api.faults >= old(provider.api.faults)
    ensures ok && (Recalled(registry, old(provider.syncer.Snapshot()))
                   || provider.syncer.lastVisitedNodes != old(provider.syncer.lastVisitedNodes))
            ==> Achieved(provider.facts, call, provider.api.state)
    ensures provider.syncer.lastVisitedNodes != old(provider.syncer.lastVisitedNodes)
            || (Recalled(registry, old(provider.syncer.Snapshot()))
                && (ok || GroupView(provider.api.state) == GroupView(old(provider.api.state))))
            ==> Recalled(registry, provider.syncer.Snapshot())
    ensures provider.api.faults == old(provider.api.faults) && UniqueTargets(provider.facts, NodesOf(call))
            && PlacedOnce(provider.facts, registry) && Steady(provider.facts, registry, old(provider.syncer.Snapshot()))
            ==> Steady(provider.facts, registry, provider.syncer.Snapshot())
                && (Possible(provider.facts, call, old(provider.api.state)) ==> ok)
  {
    hide HonestPhase, OwnersActive, OthersActive, Performed, LawfulRun, AcceptsAll, ScopeOf, Unblocked, ServedBy,
      CalledFor, Trusted, Quiet, Orderly, UniqueTargets, Registered, PlacedOnce, Homed, GroupView, InPlace, Tidy,
      PlainFacts, Served, ValidPorts, OneNetworkLength, GroupNameOf, DefaultLoadBalancerName, ActiveNames,
      WithoutCluster, NoGroupLeft, CutCleanUp, BalancersNamed, GroupsNamed, StaysSettled, Published, Answered;
    ghost var facts, start := provider.facts, provider.syncer.Snapshot();
    if Recalled(registry, start) { RecalledIsTrusted(registry, call, start); }
    NewIsTrusted(call, start);
    ghost var done;
    match call {
      case Ensure(service, nodes, services) =>
        var r;
        r, done := provider.EnsureLoadBalancer(service, nodes, services);
        ok := !r.Error?;
      case Update(service, nodes, services) =>
        ok, done := provider.UpdateLoadBalancer(service, nodes, services);
      case Delete(service, services) =>
        ok, done := provider.EnsureLoadBalancerDeleted(service, services);
    }
    ghost var now := provider.syncer.Snapshot();
    RecalledStays(facts, registry, call, start, now, ok);
    if Steady(facts, registry, start) && now.faults == start.faults && UniqueTargets(facts, NodesOf(call)) {
      SteadyIsQuiet(facts, registry, call, start, now);
      if PlacedOnce(facts, registry) { SteadyStays(facts, registry, call, start, now); }
    }
  }

  /** Between two calls: the cloud and the names remembered. */
  datatype Moment = Moment(cloud: CloudState, visited: set<string>)

  /** The n-th call of a run succeeded or left the groups as they were. */
  ghost predicate Harmless(run: seq<Moment>, oks: seq<bool>, n: nat)
    requires n < |oks| && n + 1 < |run|
  {
    oks[n] || GroupView(run[n + 1].cloud) == GroupView(run[n].cloud)
  }

  /** Of the first n calls of a run, those since the names remembered last changed were harmless. */
  ghost predicate Reliable(run: seq<Moment>, oks: seq<bool>, n: nat)
    requires n <= |oks| && n < |run|
  {
    n > 0 && run[n].visited == run[n - 1].visited ==> Harmless(run, oks, n - 1) && Reliable(run, oks, n - 1)
  }

  lemma {:induction false} ReliableBefore(run: seq<Moment>, oks: seq<bool>, n: nat, moment: Moment, ok: bool)
    requires n <= |oks| && |run| == |oks| + 1
    ensures Reliable(run + [moment], oks + [ok], n) <==> Reliable(run, oks, n)
  {
    if n > 0 {
      ReliableBefore(run, oks, n - 1, moment, ok);
    }
  }

  lemma ReliableNext(run: seq<Moment>, oks: seq<bool>, moment: Moment, ok: bool)
    requires |run| == |oks| + 1
    ensures Reliable(run + [moment], oks + [ok], |oks| + 1) <==>
            moment.visited != run[|oks|].visited
            || ((ok || GroupView(moment.cloud) == GroupView(run[|oks|].cloud)) && Reliable(run, oks, |oks|))
  {
    ReliableBefore(run, oks, |oks|, moment, ok);
  }

  /** Each success is exact, on any cloud and whatever the environment does, unless a call failed after
      changing groups and the names remembered are still the same. */
  ghost predicate SuccessesAreExact(facts: Facts, calls: seq<Call>, run: seq<Moment>, oks: seq<bool>)
    requires |oks| <= |calls| && |run| == |oks| + 1
  {
    forall i :: 0 <= i < |oks| && oks[i] && Reliable(run, oks, i + 1) ==> Achieved(facts, calls[i], run[i + 1].cloud)
  }

  /** Each call does what it is for, unless the service itself is in its way. */
  ghost predicate AllSucceed(facts: Facts, calls: seq<Call>, run: seq<Moment>, oks: seq<bool>)
    requires |oks| <= |calls| && |run| == |oks| + 1
  {
    forall i :: 0 <= i < |oks| ==>
      && (Possible(facts, calls[i], run[i].cloud) ==> oks[i])
      && (oks[i] ==> Achieved(facts, calls[i], run[i + 1].cloud))
  }

  lemma ExactNext(facts: Facts, calls: seq<Call>, run: seq<Moment>, oks: seq<bool>, moment: Moment, ok: bool)
    requires |oks| < |calls| && |run| == |oks| + 1 && SuccessesAreExact(facts, calls, run, oks)
    requires ok && (Reliable(run, oks, |oks|) || moment.visited != run[|oks|].visited) ==>
               Achieved(facts, calls[|oks|], moment.cloud)
    ensures SuccessesAreExact(facts, calls, run + [moment], oks + [ok])
  {
    var run', oks' := run + [moment], oks + [ok];
    hide Achieved, Reliable, GroupView;
    forall i | 0 <= i < |oks'| && oks'[i] && Reliable(run', oks', i + 1)
      ensures Achieved(facts, calls[i], run'[i + 1].cloud)
    {
      if i < |oks| {
        ReliableBefore(run, oks, i + 1, moment, ok);
        assert oks[i] && run'[i + 1] == run[i + 1];
      } else {
        ReliableNext(run, oks, moment, ok);
        assert run'[i + 1] == moment;
      }
    }
  }

  lemma SucceedNext(facts: Facts, calls: seq<Call>, run: seq<Moment>, oks: seq<bool>, moment: Moment, ok: bool)
    requires |oks| < |calls| && |run| == |oks| + 1 && AllSucceed(facts, calls, run, oks)
    requires Possible(facts, calls[|oks|], run[|oks|].cloud) ==> ok
    requires ok ==> Achieved(facts, calls[|oks|], moment.cloud)
    ensures AllSucceed(facts, calls, run + [moment], oks + [ok])
  {
    hide Achieved, Possible;
  }

  /** Nothing but the services themselves can be in the way of these calls: no two interfaces share a target,
      no target is called for under two names, and none is in a group not its own. */
  ghost predicate NothingInTheWay(facts: Facts, registry: map<string, Node>, calls: seq<Call>, view: View) {
    && PlacedOnce(facts, registry) && Homed(facts, registry, view)
    && forall call :: call in calls ==> UniqueTargets(facts, NodesOf(call))
  }

  /** Every run of calls, one after the other, from any cloud.  run says what was between the calls. */
  method Serve(provider: CloudProvider, calls: seq<Call>, ghost registry: map<string, Node>)
    returns (oks: seq<bool>, ghost run: seq<Moment>)
    requires provider.Valid() && Recalled(registry, provider.syncer.Snapshot())
    requires forall call :: call in calls ==> IsCall(registry, call)
    modifies provider.api, provider.syncer
    ensures provider.Valid() && provider.api.faults >= old(provider.api.faults)
    ensures |oks| == |calls| && |run| == |calls| + 1
    ensures run[0] == Moment(old(provider.api.state), old(provider.syncer.lastVisitedNodes))
    ensures run[|calls|] == Moment(provider.api.state, provider.syncer.lastVisitedNodes)
    ensures SuccessesAreExact(provider.facts, calls, run, oks)
    ensures Reliable(run, oks, |calls|) ==> Recalled(registry, provider.syncer.Snapshot())
    ensures provider.api.faults == old(provider.api.faults)
            && NothingInTheWay(provider.facts, registry, calls, old(provider.syncer.Snapshot()).view)
            ==> Steady(provider.facts, registry, provider.syncer.Snapshot())
                && AllSucceed(provider.facts, calls, run, oks)
  {
    hide PlacedOnce, Homed, UniqueTargets, Recalled, IsCall, Achieved, Possible, GroupView, SuccessesAreExact,
      AllSucceed, Reliable;
    ghost var facts := provider.facts;
    oks, run := [], [Moment(provider.api.state, provider.syncer.lastVisitedNodes)];
    NoCallsYet(facts, calls, run);
    for n := 0 to |calls|
      invariant provider.Valid() && provider.api.faults >= old(provider.api.faults)
      invariant |oks| == n && |run| == n + 1
      invariant run[0] == Moment(old(provider.api.state), old(provider.syncer.lastVisitedNodes))
      invariant run[n] == Moment(provider.api.state, provider.syncer.lastVisitedNodes)
      invariant SuccessesAreExact(facts, calls, run, oks)
      invariant Reliable(run, oks, n) ==> Recalled(registry, provider.syncer.Snapshot())
      invariant provider.api.faults == old(provider.api.faults)
                && NothingInTheWay(facts, registry, calls, old(provider.syncer.Snapshot()).view)
                ==> Steady(facts, registry, provider.syncer.Snapshot()) && AllSucceed(facts, calls, run, oks)
    {
      var ok := ServeOne(provider, calls[n], registry);
      ghost var moment := Moment(provider.api.state, provider.syncer.lastVisitedNodes);
      ReliableNext(run, oks, moment, ok);
      ExactNext(facts, calls, run, oks, moment, ok);
      if provider.api.faults == old(provider.api.faults)
         && NothingInTheWay(facts, registry, calls, old(provider.syncer.Snapshot()).view)
      {
        SucceedNext(facts, calls, run, oks, moment, ok);
      }
      oks, run := oks + [ok], run + [moment];
    }
  }

  lemma NoCallsYet(facts: Facts, calls: seq<Call>, run: seq<Moment>)
    requires |run| == 1
    ensures SuccessesAreExact(facts, calls, run, []) && AllSucceed(facts, calls, run, []) && Reliable(run, [], 0)
  {
  }

  /** The same from the start, whatever cloud a controller just created finds. */
  method ServeFromStart(api: CloudApi, facts: Facts, calls: seq<Call>, ghost registry: map<string, Node>)
    returns (oks: seq<bool>, ghost run: seq<Moment>)
    requires Tidy(api.state) && PlainFacts(facts) && forall call :: call in calls ==> IsCall(registry, call)
    modifies api
    ensures |oks| == |calls| && |run| == |calls| + 1
    ensures run[0] == Moment(old(api.state), {}) && run[|calls|].cloud == api.state
    ensures SuccessesAreExact(facts, calls, run, oks)
    ensures api.faults == old(api.faults) && NothingInTheWay(facts, registry, calls, GroupView(old(api.state))) ==>
              AllSucceed(facts, calls, run, oks)
  {
    hide NothingInTheWay, IsCall, Tidy, GroupView, PlainFacts, SuccessesAreExact, AllSucceed, Recalled;
    var provider := new CloudProvider(api, facts);
    FreshIsRecalled(registry, provider.syncer.Snapshot());
    oks, run := Serve(provider, calls, registry);
  }

  /** In particular: after calls that all succeeded or left the groups alone, each success is exact. */
  lemma {:induction false} HarmlessIsReliable(run: seq<Moment>, oks: seq<bool>, n: nat)
    requires n <= |oks| && n < |run| && forall j :: 0 <= j < n ==> Harmless(run, oks, j)
    ensures Reliable(run, oks, n)
  {
    hide Harmless;
    if n > 0 {
      HarmlessIsReliable(run, oks, n - 1);
    }
  }

  /** Two stretches of one call make one phase. */
  lemma JoinPhases(c: CloudState, first: seq<Request>, mid: CloudState, more: seq<Request>, after: CloudState,
                   sc: Scope)
    requires Performed(c, first, mid) && LawfulRun(c, first, sc)
    requires Performed(mid, more, after) && LawfulRun(mid, more, sc)
    ensures Performed(c, first + more, after) && LawfulRun(c, first + more, sc)
    ensures AcceptsAll(c, first) && AcceptsAll(mid, more) && AcceptsAll(c, first + more)
    ensures forall owned :: HonestPhase(c, first, owned, sc) && HonestPhase(mid, more, owned, sc) ==>
              HonestPhase(c, first + more, owned, sc)
  {
    PerformedAppend(c, first, mid, more, after);
    LawfulAppend(c, first, mid, more, sc);
    forall owned | HonestPhase(c, first, owned, sc) && HonestPhase(mid, more, owned, sc)
      ensures HonestPhase(c, first + more, owned, sc)
    {
      HonestAppend(c, first, mid, more, owned, sc);
    }
    hide LawfulRun, HonestPhase;
  }

  lemma OnlyOthersLeft(c: CloudState, owned: set<string>, sc: Scope)
    requires BalancersNamed(c, sc.balancer) == {} && OthersActive(c, owned, sc)
    ensures OwnersActive(c, owned, sc)
  {
    forall id | id in c.balancers && c.balancers[id].name in owned ensures c.balancers[id].name in sc.active {
      assert id !in BalancersNamed(c, sc.balancer);
    }
  }

  lemma PerformedIsAccepted(c: CloudState, done: seq<Request>, after: CloudState)
    requires Performed(c, done, after)
    ensures AcceptsAll(c, done)
  {
  }

  lemma DeletionIsLawful(c: CloudState, done: seq<Request>, after: CloudState, sc: Scope)
    requires Tidy(c) && Performed(c, done, after)
    requires done == [] || exists id :: BalancersNamed(c, sc.balancer) == {id} && done == [DeleteBalancer(id)]
    ensures LawfulRun(c, done, sc) && after.groups == c.groups && ValidCloud(after)
    ensures AcceptsAll(c, done) && forall owned :: HonestPhase(c, done, owned, sc)
    ensures forall owned :: OthersActive(c, owned, sc) ==> OthersActive(after, owned, sc)
  {
    forall owned ensures HonestPhase(c, done, owned, sc) { NoDeletionIsHonest(c, done, owned, sc); }
    if done != [] {
      var id :| BalancersNamed(c, sc.balancer) == {id} && done == [DeleteBalancer(id)];
      PerformedOne(c, DeleteBalancer(id), after);
      assert id in BalancersNamed(c, sc.balancer) && done[1..] == [];
    }
  }

  /** A pass for a service is an honest phase of a run, wherever it was cut off. */
  lemma PassIsPhase(c: CloudState, d: Balancer, k: nat, after: CloudState, sc: Scope)
    requires Tidy(c) && ValidCloud(after) && AtMostOne(BalancersNamed(c, d.name)) && IsPass(c, d, k, after)
    requires d.name == sc.balancer && GroupsExist(c, d.attached)
    ensures after.groups == c.groups && Tidy(after)
    ensures var done := Plan(c, d)[..k];
            Performed(c, done, after) && LawfulRun(c, done, sc)
            && forall owned :: HonestPhase(c, done, owned, sc)
  {
    hide Plan, LawfulRun, UniqueGroups, PlainSubnets, GroupView, HonestPhase, GroupsExist, IsEdit;
    PassKeepsGroups(c, d, k, after);
    SameGroupsSameView(c, after);
    PerformedIsAccepted(c, Plan(c, d)[..k], after);
    BalancerPassIsLawful(c, d, k, sc);
    PassDeletesNoGroup(c, d, k);
    forall owned ensures HonestPhase(c, Plan(c, d)[..k], owned, sc) {
      NoDeletionIsHonest(c, Plan(c, d)[..k], owned, sc);
    }
  }

  lemma PassDeletesNoGroup(c: CloudState, d: Balancer, k: nat)
    requires AtMostOne(BalancersNamed(c, d.name)) && k <= |Plan(c, d)|
    ensures forall r :: r in Plan(c, d)[..k] ==> !r.DeleteGroup?
  {
    hide Plan;
    PassSendsBalancerRequests(c, d);
    forall r | r in Plan(c, d)[..k] ensures !r.DeleteGroup? {
      assert r in Plan(c, d);
    }
  }

  lemma PassServes(facts: Facts, s: Service, tg: Id, c: CloudState, k: nat, after: CloudState, r: Outcome, quiet: bool)
    requires ValidCloud(c) && |s.ports| <= PORT_LIMIT && GroupsNamed(c, GroupNameOf(facts, s)) == {tg}
    requires AtMostOne(BalancersNamed(c, DefaultLoadBalancerName(s.uid)))
    requires PassResult(c, RequestFor(s, tg), k, after, r, quiet)
    ensures !r.Error? && ValidPorts(s.ports) ==>
              Served(facts, after, s) && (r.NoListener? ==> s.ports == []) && Answered(after, s, r)
    ensures quiet && Ready(facts, c, s) ==> !r.Error?
  {
    var d := RequestFor(s, tg);
    hide Plan, Settled, Performed, DefaultLoadBalancerName, GroupNameOf;
    if Ready(facts, c, s) {
      RequestIsValid(s, tg);
      PlanAccepted(c, d);
    }
    if !r.Error? && ValidPorts(s.ports) {
      RequestIsValid(s, tg);
      PassKeepsGroups(c, d, k, after);
      SameGroupsSameView(c, after);
      assert GroupsNamed(after, GroupNameOf(facts, s)) == {tg} && Settled(after, RequestFor(s, tg));
    }
  }
}
