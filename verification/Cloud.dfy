/**
 The cloud as the controller sees it: load balancers and target groups addressed by id, the
 requests that change them, which requests the cloud takes, and an interface object through
 which every request may succeed, fail without effect or fail after taking effect.
 */
module Cloud {
  import opened Seqs

  type Id = nat

  datatype Protocol = ProtocolUnspecified | TCP | UDP
  datatype BalancerKind = External | Internal

  /** A listener, or the specification of one; `internal` tells the two kinds of address apart. */
  datatype Listener = Listener(name: string, protocol: Protocol, port: int, targetPort: int, internal: bool)

  datatype Duration = Duration(seconds: int, nanos: int)
  datatype CheckOptions = HttpOptions(port: int, path: string) | TcpOptions(port: int)
  datatype HealthCheck = HealthCheck(name: string, interval: Duration, timeout: Duration,
                                     unhealthyThreshold: int, healthyThreshold: int, options: CheckOptions)
  datatype AttachedGroup = AttachedGroup(groupId: Id, healthChecks: seq<HealthCheck>)

  datatype Balancer = Balancer(name: string, kind: BalancerKind, listeners: seq<Listener>, attached: seq<AttachedGroup>)

  datatype Target = Target(subnetId: string, address: string)
  datatype TargetGroup = TargetGroup(name: string, targets: seq<Target>)

  datatype CloudState = CloudState(balancers: map<Id, Balancer>, groups: map<Id, TargetGroup>, nextId: Id)

  datatype Request =
    | CreateBalancer(balancer: Balancer)
    | DeleteBalancer(id: Id)
    | RemoveListener(id: Id, listenerName: string)
    | AddListener(id: Id, listener: Listener)
    | DetachGroup(id: Id, groupId: Id)
    | AttachGroup(id: Id, attachment: AttachedGroup)
    | CreateGroup(group: TargetGroup)
    | AddTargets(id: Id, targets: seq<Target>)
    | RemoveTargets(id: Id, targets: seq<Target>)
    | DeleteGroup(id: Id)

  function NameOf(l: Listener): string { l.name }
  function SlotOf(l: Listener): (Protocol, int) { (l.protocol, l.port) }
  function GroupIdOf(g: AttachedGroup): Id { g.groupId }

  /** What the cloud keeps true of every balancer. */
  predicate ValidBalancer(b: Balancer) {
    DistinctBy(b.listeners, NameOf) && DistinctBy(b.listeners, SlotOf) && DistinctBy(b.attached, GroupIdOf)
  }

  /** No group but this one holds any of these targets. */
  predicate Unclaimed(c: CloudState, id: Id, ts: seq<Target>) {
    forall i :: i in c.groups && i != id ==> forall t :: t in ts ==> t !in c.groups[i].targets
  }

  /** The cloud keeps a target in one group only. */
  ghost predicate OneGroupPerTarget(c: CloudState) {
    forall i :: i in c.groups ==> Unclaimed(c, i, c.groups[i].targets)
  }

  ghost predicate ValidCloud(c: CloudState) {
    && (forall id :: id in c.balancers ==> ValidBalancer(c.balancers[id]) && id < c.nextId)
    && (forall id :: id in c.groups ==> Distinct(c.groups[id].targets) && id < c.nextId)
    && OneGroupPerTarget(c)
  }

  /** A request that edits one balancer in place. */
  predicate IsEdit(r: Request) {
    r.RemoveListener? || r.AddListener? || r.DetachGroup? || r.AttachGroup?
  }

  predicate AcceptsEdit(b: Balancer, r: Request)
    requires IsEdit(r)
  {
    match r
    case RemoveListener(_, n) => exists l :: l in b.listeners && l.name == n
    case AddListener(_, l) => forall x :: x in b.listeners ==> x.name != l.name && SlotOf(x) != SlotOf(l)
    case DetachGroup(_, g) => exists a :: a in b.attached && a.groupId == g
    case AttachGroup(_, a) => forall x :: x in b.attached ==> x.groupId != a.groupId
  }

  function Edit(b: Balancer, r: Request): (b': Balancer)
    requires IsEdit(r)
    ensures b'.name == b.name && b'.kind == b.kind
  {
    match r
    case RemoveListener(_, n) => b.(listeners := WithoutName(b.listeners, NameOf, n))
    case AddListener(_, l) => b.(listeners := b.listeners + [l])
    case DetachGroup(_, g) => b.(attached := WithoutName(b.attached, GroupIdOf, g))
    case AttachGroup(_, a) => b.(attached := b.attached + [a])
  }

  predicate Accepts(c: CloudState, r: Request) {
    if IsEdit(r) then r.id in c.balancers && AcceptsEdit(c.balancers[r.id], r)
    else
      match r
      case CreateBalancer(b) => ValidBalancer(b)
      case DeleteBalancer(id) => id in c.balancers
      case CreateGroup(g) => Distinct(g.targets) && Unclaimed(c, c.nextId, g.targets)
      case AddTargets(id, ts) => id in c.groups && Distinct(c.groups[id].targets + ts) && Unclaimed(c, id, ts)
      case RemoveTargets(id, ts) => id in c.groups && forall t :: t in ts ==> t in c.groups[id].targets
      case DeleteGroup(id) => id in c.groups
  }

  function Perform(c: CloudState, r: Request): CloudState
    requires Accepts(c, r)
  {
    if IsEdit(r) then SetBalancer(c, r.id, Edit(c.balancers[r.id], r))
    else
      match r
      case CreateBalancer(b) => c.(balancers := c.balancers[c.nextId := b], nextId := c.nextId + 1)
      case DeleteBalancer(id) => c.(balancers := c.balancers - {id})
      case CreateGroup(g) => c.(groups := c.groups[c.nextId := g], nextId := c.nextId + 1)
      case AddTargets(id, ts) =>
        SetGroup(c, id, c.groups[id].(targets := c.groups[id].targets + ts))
      case RemoveTargets(id, ts) =>
        SetGroup(c, id, c.groups[id].(targets := Filter(c.groups[id].targets, t => t !in ts)))
      case DeleteGroup(id) => c.(groups := c.groups - {id})
  }

  function SetBalancer(c: CloudState, id: Id, b: Balancer): CloudState {
    c.(balancers := c.balancers[id := b])
  }

  function SetGroup(c: CloudState, id: Id, g: TargetGroup): CloudState {
    c.(groups := c.groups[id := g])
  }

  lemma EditKeepsValid(b: Balancer, r: Request)
    requires ValidBalancer(b) && IsEdit(r) && AcceptsEdit(b, r)
    ensures ValidBalancer(Edit(b, r))
  {
    match r
    case RemoveListener(_, n) =>
      WithoutNameDistinctBy(b.listeners, NameOf, n, NameOf);
      WithoutNameDistinctBy(b.listeners, NameOf, n, SlotOf);
    case DetachGroup(_, g) =>
      WithoutNameDistinctBy(b.attached, GroupIdOf, g, GroupIdOf);
    case _ =>
  }

  lemma PerformKeepsValid(c: CloudState, r: Request)
    requires ValidCloud(c) && Accepts(c, r)
    ensures ValidCloud(Perform(c, r))
  {
    if IsEdit(r) {
      EditKeepsValid(c.balancers[r.id], r);
    } else if r.RemoveTargets? {
      FilterDistinctBy(c.groups[r.id].targets, t => t !in r.targets, (t: Target) => t);
    }
    PerformKeepsApart(c, r);
    hide OneGroupPerTarget;
  }

  lemma PerformKeepsApart(c: CloudState, r: Request)
    requires ValidCloud(c) && Accepts(c, r)
    ensures OneGroupPerTarget(Perform(c, r))
  {
    hide ValidBalancer, AcceptsEdit, Edit, Filter, Distinct;
    var after := Perform(c, r);
    forall i, j, t | i in after.groups && j in after.groups && i != j && t in after.groups[i].targets
      ensures t !in after.groups[j].targets
    {
      assert i in c.groups ==> Unclaimed(c, i, c.groups[i].targets);
      if r.RemoveTargets? {
        RemainingTargets(c.groups[r.id].targets, r.targets);
      }
    }
  }

  lemma RemainingTargets(ts: seq<Target>, removed: seq<Target>)
    ensures forall t :: t in Filter(ts, t => t !in removed) ==> t in ts
  {
    forall t | t in Filter(ts, t => t !in removed) ensures t in ts {
      FilterMembers(ts, t => t !in removed, t);
    }
  }

  /** Where a sequence of requests leads, if the cloud takes each one when its turn comes. */
  ghost function After(c: CloudState, rs: seq<Request>): Option<CloudState>
    decreases rs
  {
    if rs == [] then Some(c)
    else if Accepts(c, rs[0]) then After(Perform(c, rs[0]), rs[1..])
    else None
  }

  ghost predicate AcceptsAll(c: CloudState, rs: seq<Request>) { After(c, rs).Some? }

  ghost function PerformAll(c: CloudState, rs: seq<Request>): CloudState
    requires AcceptsAll(c, rs)
  {
    After(c, rs).value
  }

  /** The cloud went from c to c' by exactly these requests. */
  ghost predicate Performed(c: CloudState, rs: seq<Request>, c': CloudState) { After(c, rs) == Some(c') }

  lemma PerformedOne(c: CloudState, r: Request, after: CloudState)
    ensures Performed(c, [r], after) <==> Accepts(c, r) && after == Perform(c, r)
  {
    assert [r][1..] == [];
    if Accepts(c, r) { assert After(Perform(c, r), []) == Some(Perform(c, r)); }
  }

  lemma PerformedTwo(c: CloudState, r: Request, q: Request, after: CloudState)
    ensures Performed(c, [r, q], after) <==> Accepts(c, r) && Performed(Perform(c, r), [q], after)
  {
    assert [r, q][1..] == [q];
  }

  lemma {:induction false} PerformedAppend(c: CloudState, rs: seq<Request>, c': CloudState, more: seq<Request>,
                                           c'': CloudState)
    requires Performed(c, rs, c') && Performed(c', more, c'')
    ensures Performed(c, rs + more, c'')
    decreases rs
  {
    if rs == [] {
      assert rs + more == more;
    } else {
      PerformedAppend(Perform(c, rs[0]), rs[1..], c', more, c'');
      assert (rs + more)[1..] == rs[1..] + more;
    }
  }

  /** Two consecutive stretches of one sequence of requests. */
  lemma PerformedStretch(c: CloudState, rs: seq<Request>, k: nat, mid: CloudState, j: nat, after: CloudState)
    requires k + j <= |rs|
    requires Performed(c, rs[..k], mid) && Performed(mid, rs[k..][..j], after)
    ensures Performed(c, rs[..k + j], after)
  {
    PerformedAppend(c, rs[..k], mid, rs[k..][..j], after);
    assert rs[..k] + rs[k..][..j] == rs[..k + j];
  }

  lemma {:induction false} AcceptsAllSplit(c: CloudState, rs: seq<Request>, k: nat)
    requires k <= |rs|
    ensures AcceptsAll(c, rs) <==> AcceptsAll(c, rs[..k]) && AcceptsAll(PerformAll(c, rs[..k]), rs[k..])
    ensures AcceptsAll(c, rs) ==> PerformAll(c, rs) == PerformAll(PerformAll(c, rs[..k]), rs[k..])
    decreases rs
  {
    if k == 0 {
      assert rs[..0] == [] && rs[0..] == rs;
    } else if Accepts(c, rs[0]) {
      AcceptsAllSplit(Perform(c, rs[0]), rs[1..], k - 1);
      assert rs[..k][1..] == rs[1..][..k - 1];
      assert rs[1..][k - 1..] == rs[k..];
    }
  }

  lemma {:induction false} PerformAllKeepsValid(c: CloudState, rs: seq<Request>)
    requires ValidCloud(c) && AcceptsAll(c, rs)
    ensures ValidCloud(PerformAll(c, rs))
    decreases rs
  {
    if rs != [] {
      PerformKeepsValid(c, rs[0]);
      PerformAllKeepsValid(Perform(c, rs[0]), rs[1..]);
    }
  }

  function BalancersNamed(c: CloudState, name: string): set<Id> {
    set id | id in c.balancers && c.balancers[id].name == name
  }

  function GroupsNamed(c: CloudState, name: string): set<Id> {
    set id | id in c.groups && c.groups[id].name == name
  }

  ghost predicate AtMostOne(ids: set<Id>) {
    forall i, j :: i in ids && j in ids ==> i == j
  }

  /** What the environment decides about one request. */
  datatype Fate = Succeeds | LostBefore | LostAfter

  datatype Reply = Done(id: Id) | NotFound | Failed
  datatype Page<T> = Listed(items: seq<T>) | ListNotFound | ListFailed

  datatype Lookup = LookedUp(id: Option<Id>) | LookupNotFound | LookupFailed

  /** Finding by name: more than one hit is an error, none is an answer. */
  function LookupOf(page: Page<Id>): Lookup {
    match page
    case ListNotFound => LookupNotFound
    case ListFailed => LookupFailed
    case Listed(items) =>
      if |items| > 1 then LookupFailed else if |items| == 0 then LookedUp(None) else LookedUp(Some(items[0]))
  }

  class CloudApi {
    var state: CloudState
    ghost var faults: nat  // how often the environment let a call fail

    ghost predicate Valid() reads this { ValidCloud(state) }

    constructor (initial: CloudState)
      requires ValidCloud(initial)
      ensures Valid() && state == initial && faults == 0
    {
      state, faults := initial, 0;
    }

    /** Send a request and wait for its operation.  A request that the cloud does not take fails
        without effect; otherwise only the environment makes it fail, before or after its effect. */
    method Call(r: Request) returns (reply: Reply, ghost done: seq<Request>)
      requires Valid()
      modifies this
      ensures Valid() && Performed(old(state), done, state)
      ensures done == [] || done == [r]
      ensures reply.Done? ==> done == [r]
      ensures reply.Done? && (r.CreateBalancer? || r.CreateGroup?) ==> reply.id == old(state).nextId
      ensures reply.NotFound? ==> !Accepts(old(state), r)
      ensures faults == old(faults) && !Accepts(old(state), r) && (r.DeleteBalancer? || r.DeleteGroup?) ==>
                reply.NotFound?
      ensures faults >= old(faults)
      ensures Accepts(old(state), r) && faults == old(faults) ==> reply.Done?
    {
      var fate: Fate := *;
      done := [];
      if fate.LostBefore? {
        faults := faults + 1;
        reply := Failed;
        return;
      }
      if !Accepts(state, r) {
        reply := if r.DeleteBalancer? || r.DeleteGroup? then NotFound else Failed;
        return;
      }
      PerformKeepsValid(state, r);
      reply := Done(state.nextId);
      state := Perform(state, r);
      done := [r];
      if fate.LostAfter? {
        faults := faults + 1;
        reply := Failed;
      }
    }

    /** Put a question to another service; only the environment leaves it unanswered. */
    method Ask() returns (answered: bool)
      modifies `faults
      ensures faults >= old(faults) && (faults == old(faults) ==> answered)
    {
      answered := *;
      if !answered {
        faults := faults + 1;
      }
    }

    /** The balancers with a name, at most two of them as the page size asks. */
    method ListBalancers(name: string) returns (page: Page<Id>)
      modifies `faults
      ensures page.Listed? ==> IsPage(page.items, BalancersNamed(state, name))
      ensures page.ListNotFound? ==> BalancersNamed(state, name) == {}
      ensures faults >= old(faults) && (faults == old(faults) ==> page.Listed?)
    {
      page := ListIds(BalancersNamed(state, name), 2);
      if page.Listed? && |page.items| > 1 {
        assert page.items[0] in BalancersNamed(state, name) && page.items[1] in BalancersNamed(state, name);
      }
    }

    method ListGroups(name: string) returns (page: Page<Id>)
      modifies `faults
      ensures page.Listed? ==> IsPage(page.items, GroupsNamed(state, name))
      ensures page.ListNotFound? ==> GroupsNamed(state, name) == {}
      ensures faults >= old(faults) && (faults == old(faults) ==> page.Listed?)
    {
      page := ListIds(GroupsNamed(state, name), 2);
      if page.Listed? && |page.items| > 1 {
        assert page.items[0] in GroupsNamed(state, name) && page.items[1] in GroupsNamed(state, name);
      }
    }

    /** The first thousand groups, whichever the cloud puts first. */
    method ListAllGroups() returns (page: Page<Id>)
      modifies `faults
      ensures page.Listed? ==>
        && Distinct(page.items) && (forall id :: id in page.items ==> id in state.groups)
        && (|state.groups.Keys| <= 1000 ==> forall id :: id in state.groups ==> id in page.items)
      ensures faults >= old(faults) && (faults == old(faults) ==> page.Listed?)
    {
      page := ListIds(state.groups.Keys, GROUP_PAGE);
    }

    method ListIds(ids: set<Id>, pageSize: nat) returns (page: Page<Id>)
      modifies `faults
      ensures page.Listed? ==>
        && Distinct(page.items) && (forall id :: id in page.items ==> id in ids)
        && (|ids| <= pageSize ==> forall id :: id in ids ==> id in page.items)
        && |page.items| == if |ids| <= pageSize then |ids| else pageSize
      ensures page.ListNotFound? ==> ids == {}
      ensures faults >= old(faults) && (faults == old(faults) ==> page.Listed?)
    {
      var fate: Fate := *;
      if fate.Succeeds? {
        var items := PickUpTo(ids, pageSize);
        page := Listed(items);
      } else {
        faults := faults + 1;
        page := if ids == {} && fate.LostBefore? then ListNotFound else ListFailed;
      }
    }
  }

  const GROUP_PAGE := 1000

  /** A page of at most two of the ids: empty or a singleton only if that is all there is. */
  ghost predicate IsPage(items: seq<Id>, ids: set<Id>) {
    && (items == [] ==> ids == {})
    && (|items| == 1 ==> ids == {items[0]})
    && (|items| > 1 ==> !AtMostOne(ids))
  }

  /** Send the k-th request of a plan; count how far the plan has got. */
  method Send(api: CloudApi, r: Request, ghost c: CloudState, ghost plan: seq<Request>, ghost k: nat)
    returns (reply: Reply, ghost k': nat)
    requires api.Valid() && k < |plan| && r == plan[k] && Performed(c, plan[..k], api.state)
    modifies api
    ensures api.Valid() && k <= k' <= k + 1 && Performed(c, plan[..k'], api.state)
    ensures reply.Done? ==> k' == k + 1
    ensures k' == k ==> api.state == old(api.state)
    ensures reply.Done? && (r.CreateBalancer? || r.CreateGroup?) ==> 
            && Accepts(old(api.state), r)
            && reply.id == old(api.state).nextId && api.state == Perform(old(api.state), r)
    ensures api.faults >= old(api.faults)
    ensures api.faults == old(api.faults) && AcceptsAll(c, plan) ==> reply.Done?
  {
    ghost var done;
    reply, done := api.Call(r);
    k' := k + |done|;
    StretchByOne(c, plan, k, old(api.state), done, api.state);
    if Accepts(old(api.state), r) && done == [r] {
      assert After(old(api.state), [r]) == After(Perform(old(api.state), r), [r][1..]);
    }
  }

  lemma StretchByOne(c: CloudState, plan: seq<Request>, k: nat, mid: CloudState, done: seq<Request>, after: CloudState)
    requires k < |plan| && Performed(c, plan[..k], mid)
    requires (done == [] || done == [plan[k]]) && Performed(mid, done, after)
    ensures Performed(c, plan[..k + |done|], after)
    ensures AcceptsAll(c, plan) ==> Accepts(mid, plan[k])
  {
    AcceptsAllSplit(c, plan, k);
    PerformedAppend(c, plan[..k], mid, done, after);
    assert plan[..k] + done == plan[..k + |done|];
  }
}
