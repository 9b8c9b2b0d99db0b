/**
 What one pass of balancer reconciliation asks of the cloud, as a function of the cloud it found,
 and what interrupting and repeating such passes amounts to (pkg/yapi/loadbalancer.go:36-187).
 */
module BalancerPlan {
  import opened Seqs
  import opened KeyedDiff
  import opened Cloud

  // What the update path compares.
  datatype Endpoint = Endpoint(protocol: Protocol, port: int, targetPort: int)
  datatype CheckKey = CheckKey(name: string, unhealthyThreshold: int, healthyThreshold: int,
                               port: int, path: string, intervalSeconds: int, timeoutSeconds: int)
  datatype AttachmentKey = AttachmentKey(groupId: Id, check: Option<CheckKey>)

  function EndpointOf(l: Listener): Endpoint { Endpoint(l.protocol, l.port, l.targetPort) }

  /** Only the first health check counts, and only if it is an HTTP check. */
  function AttachmentKeyOf(g: AttachedGroup): AttachmentKey {
    AttachmentKey(g.groupId,
                  if g.healthChecks == [] || !g.healthChecks[0].options.HttpOptions? then None
                  else
                    var h := g.healthChecks[0];
                    Some(CheckKey(h.name, h.unhealthyThreshold, h.healthyThreshold, h.options.port, h.options.path,
                                  h.interval.seconds, h.timeout.seconds)))
  }

  predicate HasHttpCheck(g: AttachedGroup) {
    g.healthChecks != [] && g.healthChecks[0].options.HttpOptions?
  }

  predicate SameUpToOptions(a: HealthCheck, e: HealthCheck) {
    a.name == e.name && a.unhealthyThreshold == e.unhealthyThreshold && a.healthyThreshold == e.healthyThreshold
  }

  /** Comparing the two does not crash: the comparison looks at the expected health check only after the
      group ids, and at its HTTP options only after what comes before them, turned out equal. */
  predicate Comparable(actual: AttachedGroup, expected: AttachedGroup) {
    actual.groupId == expected.groupId && actual.healthChecks != [] ==>
      && expected.healthChecks != []
      && var a, e := actual.healthChecks[0], expected.healthChecks[0];
         SameUpToOptions(a, e) && a.options.HttpOptions? ==> e.options.HttpOptions?
  }

  /** The two are compared, and count as the same. */
  predicate SameAttachment(actual: AttachedGroup, expected: AttachedGroup) {
    HasHttpCheck(expected) && AttachmentKeyOf(expected) == AttachmentKeyOf(actual)
  }

  /** Comparing all pairs, each actual attachment with the expected ones up to the first that is the same,
      does not crash. */
  predicate AllComparable(actual: seq<AttachedGroup>, expected: seq<AttachedGroup>) {
    forall i, j :: 0 <= i < |actual| && 0 <= j < |expected| ==>
      (forall k :: 0 <= k < j ==> !SameAttachment(actual[i], expected[k])) ==> Comparable(actual[i], expected[j])
  }

  /** The same for the balancer that a pass would update; nothing is asked of one it creates or replaces. */
  ghost predicate UpdateComparable(c: CloudState, d: Balancer) {
    forall id :: id in BalancersNamed(c, d.name) && c.balancers[id].kind == d.kind ==>
      AllComparable(c.balancers[id].attached, d.attached)
  }

  function Checked(gs: seq<AttachedGroup>): seq<AttachedGroup> { Filter(gs, HasHttpCheck) }

  /** Every attachment asked for has an HTTP check, as those of a service do. */
  ghost predicate AllChecked(d: Balancer) {
    forall g :: g in d.attached ==> HasHttpCheck(g)
  }

  lemma CheckedAll(d: Balancer)
    requires AllChecked(d)
    ensures Checked(d.attached) == d.attached
  {
    FilterAll(d.attached, HasHttpCheck);
  }

  lemma CheckedMembers(d: Balancer)
    requires ValidBalancer(d)
    ensures WellKeyed(Checked(d.attached), GroupIdOf, AttachmentKeyOf)
    ensures forall g :: g in Checked(d.attached) <==> g in d.attached && HasHttpCheck(g)
  {
    DistinctKeys(d);
    FilterDistinctBy(d.attached, HasHttpCheck, GroupIdOf);
    FilterDistinctBy(d.attached, HasHttpCheck, AttachmentKeyOf);
    forall g ensures g in Checked(d.attached) <==> g in d.attached && HasHttpCheck(g) {
      FilterMembers(d.attached, HasHttpCheck, g);
    }
  }

  lemma DistinctKeys(d: Balancer)
    requires ValidBalancer(d)
    ensures WellKeyed(d.listeners, NameOf, EndpointOf) && WellKeyed(d.attached, GroupIdOf, AttachmentKeyOf)
  {
    assert forall x, y :: SlotOf(x) != SlotOf(y) ==> EndpointOf(x) != EndpointOf(y);
  }

  ghost function UnwantedListeners(b: Balancer, d: Balancer): seq<Listener> {
    Unwanted(b.listeners, d.listeners, EndpointOf)
  }
  ghost function MissingListeners(b: Balancer, d: Balancer): seq<Listener> {
    Missing(b.listeners, d.listeners, NameOf, EndpointOf)
  }
  ghost function UnwantedGroups(b: Balancer, d: Balancer): seq<AttachedGroup> {
    Unwanted(b.attached, Checked(d.attached), AttachmentKeyOf)
  }
  ghost function FoundGroups(b: Balancer, d: Balancer): set<Id> {
    Found(b.attached, Checked(d.attached), GroupIdOf, AttachmentKeyOf)
  }
  ghost function MissingGroups(b: Balancer, d: Balancer): seq<AttachedGroup> {
    NotNamed(d.attached, FoundGroups(b, d), GroupIdOf)
  }

  function Removals(id: Id, ls: seq<Listener>): seq<Request> {
    Map(ls, (l: Listener) => RemoveListener(id, l.name))
  }
  function Additions(id: Id, ls: seq<Listener>): seq<Request> {
    Map(ls, (l: Listener) => AddListener(id, l))
  }
  function Detachments(id: Id, gs: seq<AttachedGroup>): seq<Request> {
    Map(gs, (g: AttachedGroup) => DetachGroup(id, g.groupId))
  }
  function Attachments(id: Id, gs: seq<AttachedGroup>): seq<Request> {
    Map(gs, (g: AttachedGroup) => AttachGroup(id, g))
  }

  /** Remove, add, detach, attach: the order in which a pass sends its requests. */
  function Assemble(id: Id, unwanted: seq<Listener>, missing: seq<Listener>,
                          detached: seq<AttachedGroup>, attached: seq<AttachedGroup>): seq<Request>
  {
    Removals(id, unwanted) + Additions(id, missing) + Detachments(id, detached) + Attachments(id, attached)
  }

  lemma AssembleRemoval(id: Id, us: seq<Listener>, ms: seq<Listener>, ds: seq<AttachedGroup>, gs: seq<AttachedGroup>)
    requires us != []
    ensures Assemble(id, us, ms, ds, gs) == [RemoveListener(id, us[0].name)] + Assemble(id, us[1..], ms, ds, gs)
  {
    assert Removals(id, us) == [RemoveListener(id, us[0].name)] + Removals(id, us[1..]);
  }

  lemma AssembleAddition(id: Id, ms: seq<Listener>, ds: seq<AttachedGroup>, gs: seq<AttachedGroup>)
    requires ms != []
    ensures Assemble(id, [], ms, ds, gs) == [AddListener(id, ms[0])] + Assemble(id, [], ms[1..], ds, gs)
  {
    assert Additions(id, ms) == [AddListener(id, ms[0])] + Additions(id, ms[1..]);
  }

  lemma AssembleDetachment(id: Id, ds: seq<AttachedGroup>, gs: seq<AttachedGroup>)
    requires ds != []
    ensures Assemble(id, [], [], ds, gs) == [DetachGroup(id, ds[0].groupId)] + Assemble(id, [], [], ds[1..], gs)
  {
    assert Detachments(id, ds) == [DetachGroup(id, ds[0].groupId)] + Detachments(id, ds[1..]);
  }

  lemma OnlyAttachments(id: Id, gs: seq<AttachedGroup>)
    ensures Assemble(id, [], [], [], gs) == Attachments(id, gs)
  {
    assert Removals(id, []) + Additions(id, []) + Detachments(id, []) == [];
  }

  lemma FirstAttachment(id: Id, gs: seq<AttachedGroup>)
    requires gs != []
    ensures Attachments(id, gs) == [AttachGroup(id, gs[0])] + Attachments(id, gs[1..])
  {
  }

  lemma AssembleAttachment(id: Id, gs: seq<AttachedGroup>)
    requires gs != []
    ensures Assemble(id, [], [], [], gs) == [AttachGroup(id, gs[0])] + Assemble(id, [], [], [], gs[1..])
  {
    hide *;
    OnlyAttachments(id, gs);
    OnlyAttachments(id, gs[1..]);
    FirstAttachment(id, gs);
  }

  lemma AssembleSize(id: Id, us: seq<Listener>, ms: seq<Listener>, ds: seq<AttachedGroup>, gs: seq<AttachedGroup>)
    ensures |Assemble(id, us, ms, ds, gs)| == |us| + |ms| + |ds| + |gs|
  {
  }

  /** The requests of a pass that finds balancer b under id and wants it to look like d. */
  ghost function UpdatePlan(id: Id, b: Balancer, d: Balancer): seq<Request> {
    if b.kind != d.kind then [DeleteBalancer(id), CreateBalancer(d)]
    else Assemble(id, UnwantedListeners(b, d), MissingListeners(b, d), UnwantedGroups(b, d), MissingGroups(b, d))
  }

  /** The requests of a pass that no failure cuts short. */
  ghost function Plan(c: CloudState, d: Balancer): seq<Request>
    requires AtMostOne(BalancersNamed(c, d.name))
  {
    if id :| id in BalancersNamed(c, d.name) then UpdatePlan(id, c.balancers[id], d) else [CreateBalancer(d)]
  }

  lemma ListenerRemoved(id: Id, b: Balancer, d: Balancer)
    requires ValidBalancer(b) && ValidBalancer(d) && b.kind == d.kind && UnwantedListeners(b, d) != []
    ensures var step := RemoveListener(id, UnwantedListeners(b, d)[0].name);
            UpdatePlan(id, b, d) == [step] + UpdatePlan(id, Edit(b, step), d)
  {
    DistinctKeys(d);
    ResumeAfterRemove(b.listeners, d.listeners, NameOf, EndpointOf);
    AssembleRemoval(id, UnwantedListeners(b, d), MissingListeners(b, d), UnwantedGroups(b, d), MissingGroups(b, d));
  }

  lemma ListenerAdded(id: Id, b: Balancer, d: Balancer)
    requires ValidBalancer(d) && b.kind == d.kind && UnwantedListeners(b, d) == [] && MissingListeners(b, d) != []
    ensures var step := AddListener(id, MissingListeners(b, d)[0]);
            UpdatePlan(id, b, d) == [step] + UpdatePlan(id, Edit(b, step), d)
  {
    DistinctKeys(d);
    ResumeAfterAdd(b.listeners, d.listeners, NameOf, EndpointOf);
    AssembleAddition(id, MissingListeners(b, d), UnwantedGroups(b, d), MissingGroups(b, d));
  }

  lemma GroupDetached(id: Id, b: Balancer, d: Balancer)
    requires ValidBalancer(b) && ValidBalancer(d) && b.kind == d.kind
    requires UnwantedListeners(b, d) == [] && MissingListeners(b, d) == [] && UnwantedGroups(b, d) != []
    ensures var step := DetachGroup(id, UnwantedGroups(b, d)[0].groupId);
            UpdatePlan(id, b, d) == [step] + UpdatePlan(id, Edit(b, step), d)
  {
    CheckedMembers(d);
    ResumeAfterRemove(b.attached, Checked(d.attached), GroupIdOf, AttachmentKeyOf);
    AssembleDetachment(id, UnwantedGroups(b, d), MissingGroups(b, d));
  }

  /** What this request puts there counts as there afterwards. */
  predicate Lasting(r: Request) {
    match r
    case CreateBalancer(b) => forall g :: g in b.attached ==> HasHttpCheck(g)
    case AttachGroup(_, g) => HasHttpCheck(g)
    case _ => true
  }

  /** What an attachment asked for matches is the attachment itself, if anything. */
  lemma AskedMatchesItself(d: Balancer, g: AttachedGroup)
    requires ValidBalancer(d) && g in d.attached
    ensures FirstMatch(g, Checked(d.attached), AttachmentKeyOf) == if HasHttpCheck(g) then Some(g) else None
  {
    CheckedMembers(d);
    SameIdSame(d);
    if HasHttpCheck(g) { assert AttachmentKeyOf(g) in Keys(Checked(d.attached), AttachmentKeyOf); }
  }

  lemma OneMoreAttached(b: Balancer, d: Balancer, g: AttachedGroup)
    requires ValidBalancer(d) && g in d.attached
    ensures var next := b.(attached := b.attached + [g]);
            && UnwantedGroups(next, d) == UnwantedGroups(b, d) + (if HasHttpCheck(g) then [] else [g])
            && FoundGroups(next, d) == FoundGroups(b, d) + if HasHttpCheck(g) then {GroupIdOf(g)} else {}
  {
    AskedMatchesItself(d, g);
    hide Unwanted, Found, AttachmentKeyOf, FirstMatch, HasHttpCheck, Checked, ValidBalancer;
    var now := b.attached + [g];
    UnwantedNext(now, |b.attached|, Checked(d.attached), GroupIdOf, AttachmentKeyOf);
    assert now[..|b.attached|] == b.attached && now[..|b.attached| + 1] == now;
  }

  lemma AttachedResumes(b: Balancer, d: Balancer)
    requires ValidBalancer(d) && UnwantedGroups(b, d) == [] && MissingGroups(b, d) != []
    ensures var g := MissingGroups(b, d)[0];
            var next := b.(attached := b.attached + [g]);
            if HasHttpCheck(g) then UnwantedGroups(next, d) == [] && MissingGroups(next, d) == MissingGroups(b, d)[1..]
            else UnwantedGroups(next, d) == [g] && MissingGroups(next, d) == MissingGroups(b, d)
  {
    var g := MissingGroups(b, d)[0];
    NotNamedMembers(d.attached, FoundGroups(b, d), GroupIdOf);
    assert g in MissingGroups(b, d);
    hide UnwantedGroups, NotNamed, FoundGroups, HasHttpCheck;
    OneMoreAttached(b, d, g);
    NotNamedRest(d.attached, FoundGroups(b, d), GroupIdOf);
    assert FoundGroups(b, d) + {} == FoundGroups(b, d);
  }

  lemma GroupAttached(id: Id, b: Balancer, d: Balancer)
    requires ValidBalancer(d) && b.kind == d.kind
    requires UnwantedListeners(b, d) == [] && MissingListeners(b, d) == []
    requires UnwantedGroups(b, d) == [] && MissingGroups(b, d) != []
    ensures var step := AttachGroup(id, MissingGroups(b, d)[0]);
            UpdatePlan(id, b, d)[0] == step &&
            (UpdatePlan(id, b, d) == [step] + UpdatePlan(id, Edit(b, step), d) <==> Lasting(step))
  {
    AttachedResumes(b, d);
    var next := Edit(b, AttachGroup(id, MissingGroups(b, d)[0]));
    AssembleAttachment(id, MissingGroups(b, d));
    assert UnwantedListeners(next, d) == [] && MissingListeners(next, d) == [];
    AssembleSize(id, [], [], UnwantedGroups(next, d), MissingGroups(next, d));
    AssembleSize(id, [], [], [], MissingGroups(b, d));
    hide UnwantedListeners, MissingListeners, UnwantedGroups, MissingGroups, Assemble, Edit, ValidBalancer;
  }

  /** An attachment asked for without an HTTP check never counts as there. */
  lemma UncheckedIsMissing(b: Balancer, d: Balancer, g: AttachedGroup)
    requires ValidBalancer(d) && g in d.attached && !HasHttpCheck(g)
    ensures g in MissingGroups(b, d)
  {
    CheckedMembers(d);
    FoundAreExpected(b.attached, Checked(d.attached), GroupIdOf, AttachmentKeyOf);
    NotNamedMembers(d.attached, FoundGroups(b, d), GroupIdOf);
    SameIdSame(d);
  }

  lemma SameIdSame(d: Balancer)
    requires ValidBalancer(d)
    ensures forall g, h :: g in d.attached && h in d.attached && GroupIdOf(g) == GroupIdOf(h) ==> g == h
  {
  }

  /** A balancer needs nothing exactly when its kind, listeners and attachments match and every attachment
      asked for has an HTTP check. */
  lemma NothingToDo(id: Id, b: Balancer, d: Balancer)
    requires ValidBalancer(d)
    ensures UpdatePlan(id, b, d) == [] <==> Matches(b, d) && AllChecked(d)
  {
    AssembleSize(id, UnwantedListeners(b, d), MissingListeners(b, d), UnwantedGroups(b, d), MissingGroups(b, d));
    if AllChecked(d) {
      NothingToDoChecked(id, b, d);
    } else {
      var g :| g in d.attached && !HasHttpCheck(g);
      UncheckedIsMissing(b, d, g);
    }
  }

  lemma NothingToDoChecked(id: Id, b: Balancer, d: Balancer)
    requires ValidBalancer(d) && AllChecked(d)
    ensures UpdatePlan(id, b, d) == [] <==> Matches(b, d)
  {
    AssembleSize(id, UnwantedListeners(b, d), MissingListeners(b, d), UnwantedGroups(b, d), MissingGroups(b, d));
    DistinctKeys(d);
    CheckedAll(d);
    DoneIffSameKeys(b.listeners, d.listeners, NameOf, EndpointOf);
    DoneIffSameKeys(b.attached, d.attached, GroupIdOf, AttachmentKeyOf);
  }

  /** The right kind, and the same endpoints and attachments as asked for. */
  ghost predicate Matches(b: Balancer, d: Balancer) {
    && b.kind == d.kind
    && Keys(b.listeners, EndpointOf) == Keys(d.listeners, EndpointOf)
    && Keys(b.attached, AttachmentKeyOf) == Keys(d.attached, AttachmentKeyOf)
  }

  lemma PlanOfNamed(c: CloudState, d: Balancer, id: Id)
    requires BalancersNamed(c, d.name) == {id}
    ensures Plan(c, d) == UpdatePlan(id, c.balancers[id], d)
  {
  }

  lemma PlanOfReplaced(c: CloudState, d: Balancer, id: Id)
    requires BalancersNamed(c, d.name) == {id} && c.balancers[id].kind != d.kind
    ensures Plan(c, d) == [DeleteBalancer(id), CreateBalancer(d)]
  {
  }

  lemma PlanOfNone(c: CloudState, d: Balancer)
    requires BalancersNamed(c, d.name) == {}
    ensures Plan(c, d) == [CreateBalancer(d)]
  {
  }

  /** Anything is left to do before the attachments. */
  ghost predicate BeforeAttaching(b: Balancer, d: Balancer) {
    UnwantedListeners(b, d) != [] || MissingListeners(b, d) != [] || UnwantedGroups(b, d) != []
  }

  /** The first edit of an update leaves exactly the rest of the update to do, unless it attaches something
      without an HTTP check, which no later pass takes as there. */
  lemma ResumeEdit(id: Id, b: Balancer, d: Balancer)
    requires ValidBalancer(b) && ValidBalancer(d) && b.kind == d.kind && UpdatePlan(id, b, d) != []
    ensures var step := UpdatePlan(id, b, d)[0];
            && IsEdit(step) && step.id == id && (BeforeAttaching(b, d) ==> Lasting(step))
            && (UpdatePlan(id, b, d) == [step] + UpdatePlan(id, Edit(b, step), d) <==> Lasting(step))
  {
    AssembleSize(id, UnwantedListeners(b, d), MissingListeners(b, d), UnwantedGroups(b, d), MissingGroups(b, d));
    var plan := UpdatePlan(id, b, d);
    assert |plan| ==
      |UnwantedListeners(b, d)| + |MissingListeners(b, d)| + |UnwantedGroups(b, d)| + |MissingGroups(b, d)|;
    assert BeforeAttaching(b, d) <==>
      !(UnwantedListeners(b, d) == [] && MissingListeners(b, d) == [] && UnwantedGroups(b, d) == []);
    hide *;
    if UnwantedListeners(b, d) != [] {
      ListenerRemoved(id, b, d);
    } else if MissingListeners(b, d) != [] {
      ListenerAdded(id, b, d);
    } else if UnwantedGroups(b, d) != [] {
      GroupDetached(id, b, d);
    } else {
      GroupAttached(id, b, d);
    }
  }

  lemma ResumeUpdate(c: CloudState, d: Balancer, id: Id)
    requires ValidCloud(c) && ValidBalancer(d) && BalancersNamed(c, d.name) == {id}
    requires c.balancers[id].kind == d.kind && Plan(c, d) != [] && Accepts(c, Plan(c, d)[0])
    ensures var next := Perform(c, Plan(c, d)[0]);
            && BalancersNamed(next, d.name) == {id} && next.balancers[id].kind == d.kind
            && (Plan(next, d) == Plan(c, d)[1..] <==> Lasting(Plan(c, d)[0]))
            && (BeforeAttaching(c.balancers[id], d) ==> Lasting(Plan(c, d)[0]))
  {
    PlanOfNamed(c, d, id);
    ResumeEdit(id, c.balancers[id], d);
    var next := Perform(c, Plan(c, d)[0]);
    assert BalancersNamed(next, d.name) == {id};
    PlanOfNamed(next, d, id);
    hide UpdatePlan, Lasting, BeforeAttaching;
  }

  lemma CreatedIsNamed(c: CloudState, d: Balancer)
    requires ValidCloud(c) && BalancersNamed(c, d.name) == {}
    ensures var next := c.(balancers := c.balancers[c.nextId := d], nextId := c.nextId + 1);
            BalancersNamed(next, d.name) == {c.nextId} && next.balancers[c.nextId] == d
  {
    var next := c.(balancers := c.balancers[c.nextId := d], nextId := c.nextId + 1);
    forall id ensures id in BalancersNamed(next, d.name) <==> id == c.nextId {
      assert id !in BalancersNamed(c, d.name);
    }
  }

  lemma ResumeCreate(c: CloudState, d: Balancer)
    requires ValidCloud(c) && ValidBalancer(d) && BalancersNamed(c, d.name) == {}
    ensures var next := Perform(c, CreateBalancer(d));
            BalancersNamed(next, d.name) == {c.nextId} && (Plan(next, d) == [] <==> AllChecked(d))
  {
    var next := Perform(c, CreateBalancer(d));
    CreatedIsNamed(c, d);
    PlanOfNamed(next, d, c.nextId);
    NothingToDo(c.nextId, d, d);
  }

  /** Taking the first step of the plan leaves exactly the rest of it for the next pass to find, unless
      that step puts an attachment there that no later pass takes as there. */
  lemma Resume(c: CloudState, d: Balancer)
    requires ValidCloud(c) && ValidBalancer(d) && AtMostOne(BalancersNamed(c, d.name))
    requires Plan(c, d) != [] && Accepts(c, Plan(c, d)[0])
    ensures var next := Perform(c, Plan(c, d)[0]);
            AtMostOne(BalancersNamed(next, d.name)) && (Plan(next, d) == Plan(c, d)[1..] <==> Lasting(Plan(c, d)[0]))
  {
    var next := Perform(c, Plan(c, d)[0]);
    if id :| id in BalancersNamed(c, d.name) {
      assert BalancersNamed(c, d.name) == {id};
      if c.balancers[id].kind == d.kind {
        hide Plan, ValidCloud, ValidBalancer, BeforeAttaching, Lasting, Perform, Accepts;
        ResumeUpdate(c, d, id);
      } else {
        PlanOfReplaced(c, d, id);
        assert BalancersNamed(next, d.name) == {};
        PlanOfNone(next, d);
      }
    } else {
      hide UpdatePlan, Accepts;
      PlanOfNone(c, d);
      ResumeCreate(c, d);
    }
  }

  lemma {:induction false} PlanPrefix(c: CloudState, d: Balancer, k: nat)
    requires ValidCloud(c) && ValidBalancer(d) && AtMostOne(BalancersNamed(c, d.name))
    requires k <= |Plan(c, d)| && AcceptsAll(c, Plan(c, d)[..k]) && forall r :: r in Plan(c, d)[..k] ==> Lasting(r)
    ensures var after := PerformAll(c, Plan(c, d)[..k]);
            ValidCloud(after) && AtMostOne(BalancersNamed(after, d.name)) && Plan(after, d) == Plan(c, d)[k..]
    decreases k
  {
    hide Plan, Perform, Accepts, ValidCloud, ValidBalancer, AtMostOne, BalancersNamed, Lasting;
    if k > 0 {
      var plan := Plan(c, d);
      assert plan[..k][1..] == plan[1..][..k - 1] && plan[1..][k - 1..] == plan[k..];
      assert plan[0] in plan[..k] && forall r :: r in plan[..k][1..] ==> r in plan[..k];
      Resume(c, d);
      PerformKeepsValid(c, plan[0]);
      PlanPrefix(Perform(c, plan[0]), d, k - 1);
    }
  }

  lemma PlanLasts(c: CloudState, d: Balancer)
    requires AllChecked(d) && AtMostOne(BalancersNamed(c, d.name))
    ensures forall r :: r in Plan(c, d) ==> Lasting(r)
  {
    if id :| id in BalancersNamed(c, d.name) {
      assert BalancersNamed(c, d.name) == {id};
      PlanOfNamed(c, d, id);
      MissingGroupsAreAsked(c.balancers[id], d);
      hide UnwantedListeners, MissingListeners, UnwantedGroups, MissingGroups;
    } else {
      PlanOfNone(c, d);
    }
  }

  // Interrupted passes

  /** Repeated passes for the same specification, the i-th of which gets as far as ks[i] requests. */
  ghost predicate Attempts(c: CloudState, d: Balancer, ks: seq<nat>)
    decreases |ks|
  {
    ks != [] ==>
      && AtMostOne(BalancersNamed(c, d.name))
      && ks[0] <= |Plan(c, d)| && AcceptsAll(c, Plan(c, d)[..ks[0]])
      && Attempts(PerformAll(c, Plan(c, d)[..ks[0]]), d, ks[1..])
  }

  ghost function AfterAttempts(c: CloudState, d: Balancer, ks: seq<nat>): CloudState
    requires Attempts(c, d, ks)
    decreases |ks|
  {
    if ks == [] then c else AfterAttempts(PerformAll(c, Plan(c, d)[..ks[0]]), d, ks[1..])
  }

  function Sum(ks: seq<nat>): nat {
    if ks == [] then 0 else ks[0] + Sum(ks[1..])
  }

  lemma OneMoreAttempt(c: CloudState, plan: seq<Request>, k: nat, mid: CloudState, j: nat, after: CloudState)
    requires k + j <= |plan|
    requires Performed(c, plan[..k], mid) && Performed(mid, plan[k..][..j], after)
    ensures Performed(c, plan[..k + j], after) && plan[k..][j..] == plan[k + j..]
  {
    PerformedStretch(c, plan, k, mid, j, after);
  }

  /** However often passes are cut off, together they carry out a prefix of the first plan, and the
      next pass finds exactly what is left of it. */
  lemma {:induction false} InterruptedAttempts(c: CloudState, d: Balancer, ks: seq<nat>)
    requires ValidCloud(c) && ValidBalancer(d) && AllChecked(d) && AtMostOne(BalancersNamed(c, d.name))
    requires Attempts(c, d, ks)
    ensures Sum(ks) <= |Plan(c, d)|
    ensures Performed(c, Plan(c, d)[..Sum(ks)], AfterAttempts(c, d, ks))
    ensures ValidCloud(AfterAttempts(c, d, ks)) && AtMostOne(BalancersNamed(AfterAttempts(c, d, ks), d.name))
    ensures Plan(AfterAttempts(c, d, ks), d) == Plan(c, d)[Sum(ks)..]
    decreases |ks|
  {
    hide Plan;
    var plan := Plan(c, d);
    if ks == [] {
      assert plan[..0] == [];
    } else {
      var k := ks[0];
      var mid := PerformAll(c, plan[..k]);
      PlanLasts(c, d);
      PlanPrefix(c, d, k);
      InterruptedAttempts(mid, d, ks[1..]);
      OneMoreAttempt(c, plan, k, mid, Sum(ks[1..]), AfterAttempts(mid, d, ks[1..]));
    }
  }

  /** One balancer of that name, of the right kind, whose listeners pair off with the specifications
      and whose attachments pair off with the groups asked for. */
  ghost predicate Settled(c: CloudState, d: Balancer) {
    exists id :: BalancersNamed(c, d.name) == {id} && Matches(c.balancers[id], d) && OneToOne(c.balancers[id], d)
  }

  ghost predicate OneToOne(b: Balancer, d: Balancer) {
    && multiset(Map(b.listeners, EndpointOf)) == multiset(Map(d.listeners, EndpointOf))
    && multiset(Map(b.attached, AttachmentKeyOf)) == multiset(Map(d.attached, AttachmentKeyOf))
  }

  lemma SameKeysPairOff<T(!new), K(!new)>(xs: seq<T>, ys: seq<T>, key: T -> K)
    requires DistinctBy(xs, key) && DistinctBy(ys, key) && Keys(xs, key) == Keys(ys, key)
    ensures multiset(Map(xs, key)) == multiset(Map(ys, key))
  {
    forall k ensures k in Map(xs, key) <==> k in Keys(xs, key) { InMap(xs, key, k); }
    forall k ensures k in Map(ys, key) <==> k in Keys(ys, key) { InMap(ys, key, k); }
    SameMembersSameMultiset(Map(xs, key), Map(ys, key));
  }

  lemma InMap<T(!new), K(!new)>(xs: seq<T>, key: T -> K, k: K)
    ensures k in Map(xs, key) <==> k in Keys(xs, key)
  {
    if k in Keys(xs, key) {
      var x :| x in xs && key(x) == k;
      var i :| 0 <= i < |xs| && xs[i] == x;
      assert Map(xs, key)[i] == k;
    }
  }

  /** A pass finds nothing to do exactly when the balancer is as asked for and every attachment asked for
      has an HTTP check. */
  lemma NoWorkIffSettled(c: CloudState, d: Balancer)
    requires ValidCloud(c) && ValidBalancer(d) && AtMostOne(BalancersNamed(c, d.name))
    ensures Plan(c, d) == [] <==> Settled(c, d) && AllChecked(d)
  {
    if id :| id in BalancersNamed(c, d.name) {
      assert BalancersNamed(c, d.name) == {id};
      PlanOfNamed(c, d, id);
      NothingToDo(id, c.balancers[id], d);
      if Matches(c.balancers[id], d) { MatchingIsSettled(c, d, id); }
    } else {
      PlanOfNone(c, d);
    }
  }

  lemma MatchingIsSettled(c: CloudState, d: Balancer, id: Id)
    requires ValidCloud(c) && ValidBalancer(d) && BalancersNamed(c, d.name) == {id} && Matches(c.balancers[id], d)
    ensures Settled(c, d)
  {
    var b := c.balancers[id];
    assert id in BalancersNamed(c, d.name);
    DistinctKeys(d);
    DistinctKeys(b);
    SameKeysPairOff(b.listeners, d.listeners, EndpointOf);
    SameKeysPairOff(b.attached, d.attached, AttachmentKeyOf);
  }

  /** Whatever the health checks, a pass that completes settles the balancer. */
  lemma CompletePass(c: CloudState, d: Balancer)
    requires ValidCloud(c) && ValidBalancer(d) && AtMostOne(BalancersNamed(c, d.name)) && AcceptsAll(c, Plan(c, d))
    ensures Settled(PerformAll(c, Plan(c, d)), d)
  {
    if id :| id in BalancersNamed(c, d.name) {
      assert BalancersNamed(c, d.name) == {id};
      PlanOfNamed(c, d, id);
      if c.balancers[id].kind == d.kind {
        UpdateRuns(c, d, id);
      } else {
        var next := Perform(c, DeleteBalancer(id));
        assert BalancersNamed(next, d.name) == {};
        PerformKeepsValid(c, DeleteBalancer(id));
        assert Plan(c, d)[1..] == [CreateBalancer(d)];
        CreateSettles(next, d);
      }
    } else {
      PlanOfNone(c, d);
      CreateSettles(c, d);
    }
  }

  lemma CreateSettles(c: CloudState, d: Balancer)
    requires ValidCloud(c) && ValidBalancer(d) && BalancersNamed(c, d.name) == {}
    ensures AcceptsAll(c, [CreateBalancer(d)]) && Settled(PerformAll(c, [CreateBalancer(d)]), d)
  {
    CreatedIsNamed(c, d);
    PerformedOne(c, CreateBalancer(d), Perform(c, CreateBalancer(d)));
    assert Matches(d, d) && OneToOne(d, d);
  }

  /** An update is taken as a whole exactly when no name is in the way, and then settles the balancer. */
  lemma {:induction false} UpdateRuns(c: CloudState, d: Balancer, id: Id)
    requires ValidCloud(c) && ValidBalancer(d) && BalancersNamed(c, d.name) == {id} && c.balancers[id].kind == d.kind
    ensures AcceptsAll(c, Plan(c, d)) <==> NamesFree(c.balancers[id], d)
    ensures AcceptsAll(c, Plan(c, d)) ==> Settled(PerformAll(c, Plan(c, d)), d)
    decreases |Plan(c, d)|
  {
    PlanOfNamed(c, d, id);
    var b, plan := c.balancers[id], Plan(c, d);
    if BeforeAttaching(b, d) {
      AssembleSize(id, UnwantedListeners(b, d), MissingListeners(b, d), UnwantedGroups(b, d), MissingGroups(b, d));
      hide Plan, Settled, NamesFree, Edit, AcceptsEdit, BeforeAttaching, UnwantedListeners, MissingListeners,
        UnwantedGroups, MissingGroups;
      ResumeEdit(id, b, d);
      NextAccepted(id, b, d);
      if Accepts(c, plan[0]) {
        ResumeUpdate(c, d, id);
        PerformKeepsValid(c, plan[0]);
        UpdateRuns(Perform(c, plan[0]), d, id);
      }
    } else {
      AttachmentsRun(c, d, id);
    }
  }

  /** What is left of an update once only attachments are missing. */
  lemma AttachmentsRun(c: CloudState, d: Balancer, id: Id)
    requires ValidCloud(c) && ValidBalancer(d) && BalancersNamed(c, d.name) == {id} && c.balancers[id].kind == d.kind
    requires !BeforeAttaching(c.balancers[id], d)
    ensures AcceptsAll(c, Plan(c, d)) && NamesFree(c.balancers[id], d) && Settled(PerformAll(c, Plan(c, d)), d)
  {
    var b, gs := c.balancers[id], MissingGroups(c.balancers[id], d);
    PlanOfNamed(c, d, id);
    OnlyAttachments(id, gs);
    assert Plan(c, d) == Attachments(id, gs);
    AttachedAreFound(b, d);
    NotNamedMembers(d.attached, FoundGroups(b, d), GroupIdOf);
    MissingGroupsDistinct(b, d);
    var after := WithAttached(c, id, gs);
    assert id in BalancersNamed(c, d.name);
    AttachAll(c, id, gs);
    AllAttached(b, d);
    hide MissingGroups, Attachments, Plan, Matches, Settled, FoundGroups;
    PerformAllKeepsValid(c, Plan(c, d));
    assert BalancersNamed(after, d.name) == {id};
    MatchingIsSettled(after, d, id);
  }

  lemma MissingGroupsDistinct(b: Balancer, d: Balancer)
    requires ValidBalancer(d)
    ensures DistinctBy(MissingGroups(b, d), GroupIdOf)
  {
    NotNamedDistinct(d.attached, FoundGroups(b, d), GroupIdOf);
  }

  lemma {:induction false} AttachAll(c: CloudState, id: Id, gs: seq<AttachedGroup>)
    requires id in c.balancers && DistinctBy(gs, GroupIdOf) && Disjoint(c.balancers[id].attached, gs)
    ensures Performed(c, Attachments(id, gs), WithAttached(c, id, gs))
    decreases |gs|
  {
    if gs == [] {
      assert c.balancers[id].attached + gs == c.balancers[id].attached;
      assert WithAttached(c, id, gs) == c;
    } else {
      var request := AttachGroup(id, gs[0]);
      FirstAttachment(id, gs);
      AttachFirst(c, id, gs);
      hide Attachments, Accepts, Perform, WithAttached, Disjoint;
      var next := Perform(c, request);
      AttachAll(next, id, gs[1..]);
      assert ([request] + Attachments(id, gs[1..]))[1..] == Attachments(id, gs[1..]);
    }
  }

  ghost predicate Disjoint(attached: seq<AttachedGroup>, gs: seq<AttachedGroup>) {
    forall a, g :: a in attached && g in gs ==> a.groupId != g.groupId
  }

  ghost function WithAttached(c: CloudState, id: Id, gs: seq<AttachedGroup>): CloudState
    requires id in c.balancers
  {
    SetBalancer(c, id, c.balancers[id].(attached := c.balancers[id].attached + gs))
  }

  lemma AttachFirst(c: CloudState, id: Id, gs: seq<AttachedGroup>)
    requires id in c.balancers && gs != [] && DistinctBy(gs, GroupIdOf) && Disjoint(c.balancers[id].attached, gs)
    ensures var request := AttachGroup(id, gs[0]);
            var next := Perform(c, request);
            && Accepts(c, request) && id in next.balancers && DistinctBy(gs[1..], GroupIdOf)
            && Disjoint(next.balancers[id].attached, gs[1..])
            && WithAttached(next, id, gs[1..]) == WithAttached(c, id, gs)
  {
    var b := c.balancers[id];
    assert gs[0] in gs && gs == [gs[0]] + gs[1..];
    assert b.attached + gs == b.attached + [gs[0]] + gs[1..];
    forall g | g in gs[1..] ensures g.groupId != gs[0].groupId { assert GroupIdOf(g) != GroupIdOf(gs[0]); }
  }

  lemma AllAttached(b: Balancer, d: Balancer)
    requires ValidBalancer(d) && b.kind == d.kind && !BeforeAttaching(b, d)
    ensures Matches(b.(attached := b.attached + MissingGroups(b, d)), d)
  {
    var gs := MissingGroups(b, d);
    DistinctKeys(d);
    DoneIffSameKeys(b.listeners, d.listeners, NameOf, EndpointOf);
    AttachedAreFound(b, d);
    NotNamedMembers(d.attached, FoundGroups(b, d), GroupIdOf);
    forall e | e in d.attached ensures AttachmentKeyOf(e) in Keys(b.attached + gs, AttachmentKeyOf) {
      if e in gs {
        assert e in b.attached + gs;
      } else {
        var a := FoundIsAttached(b, d, e);
        assert a in b.attached + gs;
      }
    }
    forall a | a in b.attached + gs ensures AttachmentKeyOf(a) in Keys(d.attached, AttachmentKeyOf) { }
  }

  lemma FoundIsAttached(b: Balancer, d: Balancer, e: AttachedGroup) returns (a: AttachedGroup)
    requires ValidBalancer(d) && e in d.attached && e.groupId in FoundGroups(b, d)
    ensures a in b.attached && AttachmentKeyOf(a) == AttachmentKeyOf(e)
  {
    CheckedMembers(d);
    SameIdSame(d);
    a :| a in b.attached && FirstMatch(a, Checked(d.attached), AttachmentKeyOf).Some?
         && GroupIdOf(FirstMatch(a, Checked(d.attached), AttachmentKeyOf).value) == e.groupId;
  }

  lemma {:induction false} AttemptsKeepValid(c: CloudState, d: Balancer, ks: seq<nat>)
    requires ValidCloud(c) && Attempts(c, d, ks)
    ensures ValidCloud(AfterAttempts(c, d, ks))
    decreases |ks|
  {
    hide Plan;
    if ks != [] {
      PerformAllKeepsValid(c, Plan(c, d)[..ks[0]]);
      AttemptsKeepValid(PerformAll(c, Plan(c, d)[..ks[0]]), d, ks[1..]);
    }
  }

  /** After any number of passes cut off anywhere, one pass that completes settles the balancer and, if
      what is asked for has HTTP checks, leaves the very state that a single undisturbed pass would have. */
  lemma Convergence(c: CloudState, d: Balancer, ks: seq<nat>)
    requires ValidCloud(c) && ValidBalancer(d) && AtMostOne(BalancersNamed(c, d.name))
    requires Attempts(c, d, ks)
    requires AtMostOne(BalancersNamed(AfterAttempts(c, d, ks), d.name))
    requires AcceptsAll(AfterAttempts(c, d, ks), Plan(AfterAttempts(c, d, ks), d))
    ensures var mid := AfterAttempts(c, d, ks);
            var last := PerformAll(mid, Plan(mid, d));
            Settled(last, d) && (AllChecked(d) ==> Performed(c, Plan(c, d), last))
  {
    hide Plan, Settled;
    var mid := AfterAttempts(c, d, ks);
    var last := PerformAll(mid, Plan(mid, d));
    AttemptsKeepValid(c, d, ks);
    CompletePass(mid, d);
    if AllChecked(d) {
      InterruptedAttempts(c, d, ks);
      var plan, k := Plan(c, d), Sum(ks);
      assert plan[k..][..|plan| - k] == Plan(mid, d);
      PerformedStretch(c, plan, k, mid, |plan| - k, last);
      assert plan[..|plan|] == plan;
    }
  }

  /** Some balancer leaves a pass nothing to do exactly if all attachments asked for have HTTP checks;
      otherwise every pass attaches something again. */
  lemma QuietIffChecked(id: Id, d: Balancer)
    requires ValidBalancer(d)
    ensures (exists b :: ValidBalancer(b) && UpdatePlan(id, b, d) == []) <==> AllChecked(d)
  {
    forall b | UpdatePlan(id, b, d) == [] ensures AllChecked(d) { NothingToDo(id, b, d); }
    if AllChecked(d) { NothingToDo(id, d, d); }
  }

  // The potential

  /** Two for a balancer to replace, one for a balancer to create, otherwise the number of endpoints
      and attachments that only one side has. */
  ghost function Distance(c: CloudState, d: Balancer): nat {
    if id :| id in BalancersNamed(c, d.name) then
      var b := c.balancers[id];
      if b.kind != d.kind then 2 else
        Gap(Keys(b.listeners, EndpointOf), Keys(d.listeners, EndpointOf))
        + Gap(Keys(b.attached, AttachmentKeyOf), Keys(d.attached, AttachmentKeyOf))
    else 1
  }

  lemma PlanIsDistance(c: CloudState, d: Balancer)
    requires ValidCloud(c) && ValidBalancer(d) && AllChecked(d) && AtMostOne(BalancersNamed(c, d.name))
    ensures |Plan(c, d)| == Distance(c, d)
  {
    if id :| id in BalancersNamed(c, d.name) {
      assert BalancersNamed(c, d.name) == {id};
      PlanOfNamed(c, d, id);
      var b := c.balancers[id];
      DistinctKeys(b);
      DistinctKeys(d);
      WorkIsDistance(b.listeners, d.listeners, NameOf, EndpointOf);
      CheckedAll(d);
      WorkIsDistance(b.attached, d.attached, GroupIdOf, AttachmentKeyOf);
    } else {
      PlanOfNone(c, d);
    }
  }

  /** Each request that takes effect brings the balancer one step closer, so all passes together
      spend exactly the distance they cover, never more than the initial one. */
  lemma EffectiveCallsAreDistance(c: CloudState, d: Balancer, ks: seq<nat>)
    requires ValidCloud(c) && ValidBalancer(d) && AllChecked(d) && AtMostOne(BalancersNamed(c, d.name))
    requires Attempts(c, d, ks)
    ensures Sum(ks) == Distance(c, d) - Distance(AfterAttempts(c, d, ks), d)
  {
    InterruptedAttempts(c, d, ks);
    PlanIsDistance(c, d);
    PlanIsDistance(AfterAttempts(c, d, ks), d);
  }

  // Does the cloud take every request of a pass?

  /** No listener that stays bears the name of one that is still to be added. */
  ghost predicate NamesFree(b: Balancer, d: Balancer) {
    forall x, m :: x in b.listeners && EndpointOf(x) in Keys(d.listeners, EndpointOf) && m in MissingListeners(b, d)
      ==> x.name != m.name
  }

  ghost predicate Feasible(c: CloudState, d: Balancer) {
    forall id :: id in BalancersNamed(c, d.name) && c.balancers[id].kind == d.kind ==> NamesFree(c.balancers[id], d)
  }

  lemma RemovalKeepsNamesFree(b: Balancer, d: Balancer)
    requires ValidBalancer(b) && ValidBalancer(d) && UnwantedListeners(b, d) != []
    ensures var next := b.(listeners := WithoutName(b.listeners, NameOf, UnwantedListeners(b, d)[0].name));
            NamesFree(next, d) <==> NamesFree(b, d)
  {
    var u := UnwantedListeners(b, d)[0];
    var next := b.(listeners := WithoutName(b.listeners, NameOf, u.name));
    DistinctKeys(d);
    ResumeAfterRemove(b.listeners, d.listeners, NameOf, EndpointOf);
    UnwantedMembers(b.listeners, d.listeners, EndpointOf);
    assert u in UnwantedListeners(b, d);
    forall x | x in b.listeners && EndpointOf(x) in Keys(d.listeners, EndpointOf) ensures x.name != u.name {
      assert x != u && NameOf(x) != NameOf(u);
    }
    forall x ensures x in next.listeners <==> x in b.listeners && x.name != u.name {
      WithoutNameMembers(b.listeners, NameOf, u.name, x);
    }
  }

  lemma AdditionAndNamesFree(b: Balancer, d: Balancer)
    requires ValidBalancer(d) && UnwantedListeners(b, d) == [] && MissingListeners(b, d) != []
    ensures var m := MissingListeners(b, d)[0];
            NamesFree(b, d) <==> (forall x :: x in b.listeners ==> x.name != m.name)
                                 && NamesFree(b.(listeners := b.listeners + [m]), d)
  {
    hide Missing, Unwanted;
    var ms := MissingListeners(b, d);
    var next := b.(listeners := b.listeners + [ms[0]]);
    DistinctKeys(d);
    ResumeAfterAdd(b.listeners, d.listeners, NameOf, EndpointOf);
    KeptAreExpected(b.listeners, d.listeners, EndpointOf);
    assert forall x :: x in b.listeners ==> EndpointOf(x) in Keys(b.listeners, EndpointOf);
    MissingMembers(b.listeners, d.listeners, NameOf, EndpointOf);
    assert ms == [ms[0]] + ms[1..];
    forall m | m in ms[1..] ensures m.name != ms[0].name {
      assert NameOf(ms[0]) != NameOf(m);
    }
  }

  /** The next edit of an update is taken unless it adds a listener whose name is in use. */
  lemma NextAccepted(id: Id, b: Balancer, d: Balancer)
    requires ValidBalancer(b) && ValidBalancer(d) && b.kind == d.kind && UpdatePlan(id, b, d) != []
    requires IsEdit(UpdatePlan(id, b, d)[0])
    ensures var step := UpdatePlan(id, b, d)[0];
            NamesFree(b, d) <==> AcceptsEdit(b, step) && NamesFree(Edit(b, step), d)
  {
    AssembleSize(id, UnwantedListeners(b, d), MissingListeners(b, d), UnwantedGroups(b, d), MissingGroups(b, d));
    var plan := UpdatePlan(id, b, d);
    assert |plan| ==
      |UnwantedListeners(b, d)| + |MissingListeners(b, d)| + |UnwantedGroups(b, d)| + |MissingGroups(b, d)|;
    assert plan == Assemble(id, UnwantedListeners(b, d), MissingListeners(b, d),
                        UnwantedGroups(b, d), MissingGroups(b, d));
    hide *;
    if UnwantedListeners(b, d) != [] {
      ListenerRemoved(id, b, d);
      RemovalAccepted(id, b, d);
    } else if MissingListeners(b, d) != [] {
      ListenerAdded(id, b, d);
      AdditionAccepted(id, b, d);
    } else if UnwantedGroups(b, d) != [] {
      GroupDetached(id, b, d);
      DetachmentAccepted(id, b, d);
      OnlyListenersMatter(b, d, plan[0]);
    } else {
      assert plan == Assemble(id, [], [], [], MissingGroups(b, d));
      AssembleAttachment(id, MissingGroups(b, d));
      AttachmentAccepted(id, b, d);
      OnlyListenersMatter(b, d, plan[0]);
    }
  }

  /** Attachments do not decide which listener names are free. */
  lemma OnlyListenersMatter(b: Balancer, d: Balancer, r: Request)
    requires r.DetachGroup? || r.AttachGroup?
    ensures NamesFree(Edit(b, r), d) <==> NamesFree(b, d)
    ensures MissingListeners(b, d) == [] ==> NamesFree(b, d)
  {
  }

  lemma RemovalAccepted(id: Id, b: Balancer, d: Balancer)
    requires ValidBalancer(b) && ValidBalancer(d) && UnwantedListeners(b, d) != []
    ensures var step := RemoveListener(id, UnwantedListeners(b, d)[0].name);
            AcceptsEdit(b, step) && (NamesFree(b, d) <==> NamesFree(Edit(b, step), d))
  {
    UnwantedMembers(b.listeners, d.listeners, EndpointOf);
    assert UnwantedListeners(b, d)[0] in UnwantedListeners(b, d);
    RemovalKeepsNamesFree(b, d);
  }

  lemma AdditionAccepted(id: Id, b: Balancer, d: Balancer)
    requires ValidBalancer(d) && UnwantedListeners(b, d) == [] && MissingListeners(b, d) != []
    ensures var step := AddListener(id, MissingListeners(b, d)[0]);
            NamesFree(b, d) <==> AcceptsEdit(b, step) && NamesFree(Edit(b, step), d)
  {
    AdditionAndNamesFree(b, d);
    DistinctKeys(d);
    MissingIsFresh(b.listeners, d.listeners, NameOf, EndpointOf, SlotOf);
    hide NamesFree;
    assert MissingListeners(b, d)[0] in MissingListeners(b, d);
  }

  lemma DetachmentAccepted(id: Id, b: Balancer, d: Balancer)
    requires UnwantedGroups(b, d) != []
    ensures AcceptsEdit(b, DetachGroup(id, UnwantedGroups(b, d)[0].groupId))
  {
    UnwantedMembers(b.attached, Checked(d.attached), AttachmentKeyOf);
    assert UnwantedGroups(b, d)[0] in UnwantedGroups(b, d);
  }

  /** Once detaching is done, what is attached is found, and only that. */
  lemma AttachedAreFound(b: Balancer, d: Balancer)
    requires UnwantedGroups(b, d) == []
    ensures forall a :: a in b.attached ==> a.groupId in FoundGroups(b, d)
    ensures forall a :: a in b.attached ==> AttachmentKeyOf(a) in Keys(d.attached, AttachmentKeyOf)
  {
    forall a | a in b.attached
      ensures a.groupId in FoundGroups(b, d) && AttachmentKeyOf(a) in Keys(d.attached, AttachmentKeyOf)
    {
      FilterMembers(b.attached, x => FirstMatch(x, Checked(d.attached), AttachmentKeyOf).None?, a);
      var e := FirstMatch(a, Checked(d.attached), AttachmentKeyOf).value;
      FilterMembers(d.attached, HasHttpCheck, e);
      assert AttachmentKeyOf(e).groupId == AttachmentKeyOf(a).groupId;
    }
  }

  lemma AttachmentAccepted(id: Id, b: Balancer, d: Balancer)
    requires ValidBalancer(d) && UnwantedGroups(b, d) == [] && MissingGroups(b, d) != []
    ensures AcceptsEdit(b, AttachGroup(id, MissingGroups(b, d)[0]))
  {
    AttachedAreFound(b, d);
    NotNamedMembers(d.attached, FoundGroups(b, d), GroupIdOf);
    assert MissingGroups(b, d)[0] in MissingGroups(b, d);
  }

  /** The cloud takes every request of an undisturbed pass exactly when no name is in the way. */
  lemma PlanAccepted(c: CloudState, d: Balancer)
    requires ValidCloud(c) && ValidBalancer(d) && AtMostOne(BalancersNamed(c, d.name))
    ensures AcceptsAll(c, Plan(c, d)) <==> Feasible(c, d)
  {
    if id :| id in BalancersNamed(c, d.name) {
      assert BalancersNamed(c, d.name) == {id};
      PlanOfNamed(c, d, id);
      if c.balancers[id].kind == d.kind {
        UpdateRuns(c, d, id);
      } else {
        var next := Perform(c, DeleteBalancer(id));
        assert BalancersNamed(next, d.name) == {};
        PlanOfNone(next, d);
        assert Plan(c, d)[1..] == [CreateBalancer(d)] && [CreateBalancer(d)][1..] == [];
        assert After(next, [CreateBalancer(d)]) == After(Perform(next, CreateBalancer(d)), []);
      }
    } else {
      PlanOfNone(c, d);
      assert After(Perform(c, CreateBalancer(d)), []).Some? && Plan(c, d)[1..] == [];
      assert forall id :: id !in BalancersNamed(c, d.name);
    }
  }

  /** If every listener that stays bears the name of its specification, no name is in the way. */
  lemma MatchingNamesSuffice(b: Balancer, d: Balancer)
    requires ValidBalancer(d)
    requires forall x, e :: x in b.listeners && e in d.listeners && EndpointOf(x) == EndpointOf(e) ==> x.name == e.name
    ensures NamesFree(b, d)
  {
    DistinctKeys(d);
    MissingMembers(b.listeners, d.listeners, NameOf, EndpointOf);
    forall x, m | x in b.listeners && EndpointOf(x) in Keys(d.listeners, EndpointOf) && m in MissingListeners(b, d)
      ensures x.name != m.name
    {
      var e :| e in d.listeners && EndpointOf(e) == EndpointOf(x);
      assert EndpointOf(x) in Keys(b.listeners, EndpointOf);
      assert e != m && NameOf(e) != NameOf(m);
    }
  }

  /** No number of passes gets through exactly when a name is in the way from the start. */
  lemma StuckIffInfeasible(c: CloudState, d: Balancer)
    requires ValidCloud(c) && ValidBalancer(d) && AtMostOne(BalancersNamed(c, d.name))
    ensures Feasible(c, d) <==> exists ks :: Attempts(c, d, ks) && Settled(AfterAttempts(c, d, ks), d)
  {
    hide Plan, Feasible, Settled;
    PlanAccepted(c, d);
    var plan := Plan(c, d);
    if Feasible(c, d) {
      assert plan[..|plan|] == plan;
      var ks := [|plan|];
      CompletePass(c, d);
      assert ks[1..] == [];
      assert AfterAttempts(c, d, ks) == PerformAll(c, plan);
      assert Attempts(c, d, ks) && Settled(AfterAttempts(c, d, ks), d);
    }
    if ks :| Attempts(c, d, ks) && Settled(AfterAttempts(c, d, ks), d) {
      if !Feasible(c, d) {
        InfeasibleStays(c, d, ks);
        SettledIsFeasible(AfterAttempts(c, d, ks), d);
      }
    }
  }

  lemma SettledIsFeasible(c: CloudState, d: Balancer)
    requires ValidCloud(c) && ValidBalancer(d) && Settled(c, d)
    ensures Feasible(c, d)
  {
    var id :| BalancersNamed(c, d.name) == {id} && Matches(c.balancers[id], d) && OneToOne(c.balancers[id], d);
    DistinctKeys(d);
    DoneIffSameKeys(c.balancers[id].listeners, d.listeners, NameOf, EndpointOf);
    hide OneToOne, Matches;
  }

  /** A name in the way stays in the way, however far passes get. */
  lemma {:induction false} InfeasibleStays(c: CloudState, d: Balancer, ks: seq<nat>)
    requires ValidCloud(c) && ValidBalancer(d) && AtMostOne(BalancersNamed(c, d.name)) && !Feasible(c, d)
    requires Attempts(c, d, ks)
    ensures ValidCloud(AfterAttempts(c, d, ks)) && !Feasible(AfterAttempts(c, d, ks), d)
    decreases |ks|
  {
    hide Plan, Feasible;
    if ks != [] {
      InfeasiblePrefix(c, d, ks[0]);
      InfeasibleStays(PerformAll(c, Plan(c, d)[..ks[0]]), d, ks[1..]);
    }
  }

  lemma InfeasiblePrefix(c: CloudState, d: Balancer, k: nat)
    requires ValidCloud(c) && ValidBalancer(d) && AtMostOne(BalancersNamed(c, d.name)) && !Feasible(c, d)
    requires k <= |Plan(c, d)| && AcceptsAll(c, Plan(c, d)[..k])
    ensures var after := PerformAll(c, Plan(c, d)[..k]);
            ValidCloud(after) && AtMostOne(BalancersNamed(after, d.name)) && !Feasible(after, d)
  {
    var id :| id in BalancersNamed(c, d.name) && c.balancers[id].kind == d.kind && !NamesFree(c.balancers[id], d);
    assert BalancersNamed(c, d.name) == {id};
    hide Plan, NamesFree, Perform, Accepts, ValidCloud, ValidBalancer;
    BlockedPrefix(c, d, id, k);
  }

  /** The one balancer would be updated, and a name is in the way. */
  ghost predicate NameBlocked(c: CloudState, d: Balancer, id: Id) {
    BalancersNamed(c, d.name) == {id} && id in c.balancers && c.balancers[id].kind == d.kind
    && !NamesFree(c.balancers[id], d)
  }

  lemma {:induction false} BlockedPrefix(c: CloudState, d: Balancer, id: Id, k: nat)
    requires ValidCloud(c) && ValidBalancer(d) && NameBlocked(c, d, id)
    requires k <= |Plan(c, d)| && AcceptsAll(c, Plan(c, d)[..k])
    ensures var after := PerformAll(c, Plan(c, d)[..k]); ValidCloud(after) && NameBlocked(after, d, id)
    decreases k
  {
    hide Plan, NamesFree, Perform, Accepts, ValidCloud, ValidBalancer, BalancersNamed;
    if k > 0 {
      var plan := Plan(c, d);
      assert plan[..k][1..] == plan[1..][..k - 1] && plan[..k] != [];
      InfeasibleStep(c, d, id);
      PerformKeepsValid(c, plan[0]);
      BlockedPrefix(Perform(c, plan[0]), d, id, k - 1);
    }
  }

  lemma InfeasibleStep(c: CloudState, d: Balancer, id: Id)
    requires ValidCloud(c) && ValidBalancer(d) && NameBlocked(c, d, id)
    ensures Plan(c, d) != []
    ensures Accepts(c, Plan(c, d)[0]) ==>
              var next := Perform(c, Plan(c, d)[0]);
              NameBlocked(next, d, id) && Plan(next, d) == Plan(c, d)[1..]
  {
    var b := c.balancers[id];
    assert MissingListeners(b, d) != [];
    PlanOfNamed(c, d, id);
    AssembleSize(id, UnwantedListeners(b, d), MissingListeners(b, d), UnwantedGroups(b, d), MissingGroups(b, d));
    assert BeforeAttaching(b, d);
    hide Plan, NamesFree, UpdatePlan, AcceptsEdit, Edit, MissingListeners, UnwantedListeners, UnwantedGroups,
      MissingGroups, BeforeAttaching;
    ResumeEdit(id, b, d);
    NextAccepted(id, b, d);
    if Accepts(c, Plan(c, d)[0]) { ResumeUpdate(c, d, id); }
  }

  lemma {:induction false} UpdatesStayPut(c: CloudState, rs: seq<Request>, after: CloudState, id: Id)
    requires forall r :: r in rs ==> IsEdit(r) && r.id == id
    requires Performed(c, rs, after) && id in c.balancers
    ensures id in after.balancers && after == SetBalancer(c, id, after.balancers[id])
    ensures after.balancers[id].name == c.balancers[id].name && after.balancers[id].kind == c.balancers[id].kind
    decreases rs
  {
    if rs != [] {
      assert rs[0] in rs;
      UpdatesStayPut(Perform(c, rs[0]), rs[1..], after, id);
    } else {
      assert c == SetBalancer(c, id, c.balancers[id]);
    }
  }

  lemma PassSendsBalancerRequests(c: CloudState, d: Balancer)
    requires AtMostOne(BalancersNamed(c, d.name))
    ensures forall r :: r in Plan(c, d) ==> IsEdit(r) || r.CreateBalancer? || r.DeleteBalancer?
  {
    if id :| id in BalancersNamed(c, d.name) {
      assert BalancersNamed(c, d.name) == {id};
      PlanOfNamed(c, d, id);
      if c.balancers[id].kind == d.kind { UpdateIsEdits(id, c.balancers[id], d); }
      hide UnwantedListeners, MissingListeners, UnwantedGroups, MissingGroups, Assemble;
    } else {
      PlanOfNone(c, d);
    }
  }

  /** A pass over a balancer leaves the groups alone. */
  lemma PassKeepsGroups(c: CloudState, d: Balancer, k: nat, after: CloudState)
    requires AtMostOne(BalancersNamed(c, d.name)) && k <= |Plan(c, d)| && Performed(c, Plan(c, d)[..k], after)
    ensures after.groups == c.groups
  {
    PassSendsBalancerRequests(c, d);
    BalancerRequestsKeepGroups(c, Plan(c, d)[..k], after);
  }

  lemma {:induction false} BalancerRequestsKeepGroups(c: CloudState, rs: seq<Request>, after: CloudState)
    requires Performed(c, rs, after) && forall r :: r in rs ==> IsEdit(r) || r.CreateBalancer? || r.DeleteBalancer?
    ensures after.groups == c.groups
    decreases rs
  {
    if rs != [] {
      assert rs[0] in rs;
      BalancerRequestsKeepGroups(Perform(c, rs[0]), rs[1..], after);
    }
  }

  /** An update leaves the balancer under its id. */
  lemma StillThere(c: CloudState, d: Balancer, id: Id, k: nat, after: CloudState)
    requires BalancersNamed(c, d.name) == {id} && c.balancers[id].kind == d.kind
    requires k <= |Plan(c, d)| && Performed(c, Plan(c, d)[..k], after)
    ensures BalancersNamed(after, d.name) == {id} && after == SetBalancer(c, id, after.balancers[id])
  {
    PlanOfNamed(c, d, id);
    UpdateIsEdits(id, c.balancers[id], d);
    hide Plan, UpdatePlan, Performed;
    assert id in BalancersNamed(c, d.name);
    UpdatesStayPut(c, Plan(c, d)[..k], after, id);
    forall i ensures i in BalancersNamed(after, d.name) <==> i in BalancersNamed(c, d.name) { }
  }

  lemma UpdateIsEdits(id: Id, b: Balancer, d: Balancer)
    requires b.kind == d.kind
    ensures forall r :: r in UpdatePlan(id, b, d) ==> IsEdit(r) && r.id == id
  {
    hide UnwantedListeners, MissingListeners, UnwantedGroups, MissingGroups;
  }

  lemma FirstListener(c: CloudState, d: Balancer, after: CloudState, id: Id)
    requires ValidCloud(c) && ValidBalancer(d) && AtMostOne(BalancersNamed(c, d.name))
    requires Performed(c, Plan(c, d), after) && id in BalancersNamed(after, d.name)
    ensures Settled(after, d) && BalancersNamed(after, d.name) == {id}
    ensures after.balancers[id].listeners == [] ==> d.listeners == []
  {
    CompletePass(c, d);
    if d.listeners != [] {
      assert EndpointOf(d.listeners[0]) in Keys(d.listeners, EndpointOf);
    }
  }

  // The same in plain fields

  lemma EndpointsAgreeIff(a: Listener, e: Listener)
    ensures EndpointOf(a) == EndpointOf(e) <==>
            a.protocol == e.protocol && a.port == e.port && a.targetPort == e.targetPort
  {
  }

  /** Group, and name, thresholds, port, path, interval and timeout of the first health check if that is an
      HTTP check. */
  ghost predicate AttachedAlike(a: AttachedGroup, e: AttachedGroup) {
    && a.groupId == e.groupId
    && (a.healthChecks != [] && a.healthChecks[0].options.HttpOptions? <==>
        e.healthChecks != [] && e.healthChecks[0].options.HttpOptions?)
    && (e.healthChecks != [] && e.healthChecks[0].options.HttpOptions? ==>
          var x, y := a.healthChecks[0], e.healthChecks[0];
          && x.name == y.name && x.options.port == y.options.port && x.options.path == y.options.path
          && x.unhealthyThreshold == y.unhealthyThreshold && x.healthyThreshold == y.healthyThreshold
          && x.interval.seconds == y.interval.seconds && x.timeout.seconds == y.timeout.seconds)
  }

  lemma AttachmentsAgreeIff(a: AttachedGroup, e: AttachedGroup)
    ensures AttachmentKeyOf(a) == AttachmentKeyOf(e) <==> AttachedAlike(a, e)
  {
  }

  /** One of these has the protocol, port and target port of l. */
  ghost predicate HasListener(ls: seq<Listener>, l: Listener) {
    exists x :: x in ls && x.protocol == l.protocol && x.port == l.port && x.targetPort == l.targetPort
  }

  /** The listeners pair off with the specifications by protocol, port and target port. */
  ghost predicate Listening(ls: seq<Listener>, specs: seq<Listener>) {
    && |ls| == |specs|
    && (forall e :: e in specs ==> HasListener(ls, e))
    && (forall l :: l in ls ==> HasListener(specs, l))
    && (forall i, j :: 0 <= i < j < |ls| ==> ls[i].protocol != ls[j].protocol || ls[i].port != ls[j].port)
  }

  ghost predicate HasAttachment(gs: seq<AttachedGroup>, g: AttachedGroup) {
    exists x :: x in gs && AttachedAlike(x, g)
  }

  /** The same with an HTTP check, without which nothing counts as there. */
  ghost predicate HasChecked(gs: seq<AttachedGroup>, g: AttachedGroup) {
    exists x :: x in gs && x.healthChecks != [] && x.healthChecks[0].options.HttpOptions? && AttachedAlike(x, g)
  }

  lemma CheckedIsAlike(gs: seq<AttachedGroup>, g: AttachedGroup)
    ensures HasChecked(gs, g) <==> HasHttpCheck(g) && HasAttachment(gs, g)
  {
    if HasHttpCheck(g) && HasAttachment(gs, g) {
      var x :| x in gs && AttachedAlike(x, g);
      assert x.healthChecks != [] && x.healthChecks[0].options.HttpOptions?;
    }
  }

  /** The attachments pair off with those asked for, each alike. */
  ghost predicate Attaching(gs: seq<AttachedGroup>, asked: seq<AttachedGroup>) {
    && |gs| == |asked|
    && (forall e :: e in asked ==> HasAttachment(gs, e))
    && (forall a :: a in gs ==> HasAttachment(asked, a))
    && (forall i, j :: 0 <= i < j < |gs| ==> gs[i].groupId != gs[j].groupId)
  }

  lemma KeysPair<T(!new), K(!new)>(xs: seq<T>, ys: seq<T>, key: T -> K)
    requires multiset(Map(xs, key)) == multiset(Map(ys, key))
    ensures |xs| == |ys| && Keys(ys, key) <= Keys(xs, key)
  {
    assert |multiset(Map(xs, key))| == |xs| && |multiset(Map(ys, key))| == |ys|;
    forall k | k in Keys(ys, key) ensures k in Keys(xs, key) {
      InMap(ys, key, k);
      assert k in multiset(Map(ys, key));
      InMap(xs, key, k);
    }
  }

  lemma ListenerByKey(ls: seq<Listener>, l: Listener)
    ensures HasListener(ls, l) <==> EndpointOf(l) in Keys(ls, EndpointOf)
  {
    if x :| x in ls && EndpointOf(x) == EndpointOf(l) { EndpointsAgreeIff(x, l); }
    if x :| x in ls && x.protocol == l.protocol && x.port == l.port && x.targetPort == l.targetPort {
      EndpointsAgreeIff(x, l);
    }
  }

  lemma AttachmentByKey(gs: seq<AttachedGroup>, g: AttachedGroup)
    ensures HasAttachment(gs, g) <==> AttachmentKeyOf(g) in Keys(gs, AttachmentKeyOf)
  {
    hide AttachedAlike, AttachmentKeyOf;
    if x :| x in gs && AttachmentKeyOf(x) == AttachmentKeyOf(g) { AttachmentsAgreeIff(x, g); }
    if x :| x in gs && AttachedAlike(x, g) { AttachmentsAgreeIff(x, g); }
  }

  /** What a comparison finds, in plain fields. */
  lemma ListenerDiff(actual: seq<Listener>, expected: seq<Listener>)
    ensures forall x :: x in Unwanted(actual, expected, EndpointOf) <==> x in actual && !HasListener(expected, x)
    ensures DistinctBy(expected, NameOf) && DistinctBy(expected, SlotOf) ==>
              forall e :: e in Missing(actual, expected, NameOf, EndpointOf) <==>
                          e in expected && !HasListener(actual, e)
  {
    hide HasListener, Unwanted, Missing;
    UnwantedMembers(actual, expected, EndpointOf);
    forall l ensures HasListener(expected, l) <==> EndpointOf(l) in Keys(expected, EndpointOf) {
      ListenerByKey(expected, l);
    }
    forall l ensures HasListener(actual, l) <==> EndpointOf(l) in Keys(actual, EndpointOf) {
      ListenerByKey(actual, l);
    }
    if DistinctBy(expected, NameOf) && DistinctBy(expected, SlotOf) {
      assert forall x, y :: SlotOf(x) != SlotOf(y) ==> EndpointOf(x) != EndpointOf(y);
      MissingMembers(actual, expected, NameOf, EndpointOf);
    }
  }

  lemma DetachedInFields(actual: seq<AttachedGroup>, expected: seq<AttachedGroup>)
    ensures forall x :: x in Unwanted(actual, Checked(expected), AttachmentKeyOf) <==>
                        x in actual && !HasChecked(expected, x)
  {
    hide HasChecked, Unwanted, AttachmentKeyOf;
    UnwantedMembers(actual, Checked(expected), AttachmentKeyOf);
    forall x: AttachedGroup
      ensures HasChecked(expected, x) <==>
              AttachmentKeyOf(x) in Keys(Checked(expected), AttachmentKeyOf)
    {
      CheckedByKey(expected, x);
    }
  }

  lemma CheckedByKey(gs: seq<AttachedGroup>, x: AttachedGroup)
    ensures HasChecked(gs, x) <==>
            AttachmentKeyOf(x) in Keys(Checked(gs), AttachmentKeyOf)
  {
    CheckedIsAlike(gs, x);
    AttachmentByKey(gs, x);
    hide HasAttachment, HasChecked;
    forall g ensures g in Checked(gs) <==> g in gs && HasHttpCheck(g) { FilterMembers(gs, HasHttpCheck, g); }
  }

  lemma AttachedInFields(actual: seq<AttachedGroup>, expected: seq<AttachedGroup>)
    requires DistinctBy(expected, GroupIdOf)
    ensures var found := Found(actual, Checked(expected), GroupIdOf, AttachmentKeyOf);
            forall e :: e in NotNamed(expected, found, GroupIdOf) <==> e in expected && !HasChecked(actual, e)
  {
    var d := Balancer("", External, [], expected);
    var found := Found(actual, Checked(expected), GroupIdOf, AttachmentKeyOf);
    CheckedMembers(d);
    NotNamedMembers(expected, found, GroupIdOf);
    hide HasAttachment, HasChecked, AttachmentKeyOf;
    forall e | e in expected ensures GroupIdOf(e) in found <==> HasChecked(actual, e) {
      CheckedIsAlike(actual, e);
      AttachmentByKey(actual, e);
      if HasHttpCheck(e) {
        FoundByKey(actual, Checked(expected), GroupIdOf, AttachmentKeyOf, e);
      } else {
        FoundAreExpected(actual, Checked(expected), GroupIdOf, AttachmentKeyOf);
        SameIdSame(d);
      }
    }
  }

  lemma ListenersPair(b: Balancer, d: Balancer)
    requires OneToOne(b, d) && ValidBalancer(b)
    ensures Listening(b.listeners, d.listeners)
  {
    KeysPair(b.listeners, d.listeners, EndpointOf);
    KeysPair(d.listeners, b.listeners, EndpointOf);
    hide HasListener, EndpointOf;
    forall e | e in d.listeners ensures HasListener(b.listeners, e) { ListenerByKey(b.listeners, e); }
    forall l | l in b.listeners ensures HasListener(d.listeners, l) { ListenerByKey(d.listeners, l); }
    assert forall i, j :: 0 <= i < j < |b.listeners| ==> SlotOf(b.listeners[i]) != SlotOf(b.listeners[j]);
  }

  lemma AttachmentsPair(b: Balancer, d: Balancer)
    requires OneToOne(b, d) && ValidBalancer(b)
    ensures Attaching(b.attached, d.attached)
  {
    KeysPair(b.attached, d.attached, AttachmentKeyOf);
    KeysPair(d.attached, b.attached, AttachmentKeyOf);
    hide HasAttachment, AttachmentKeyOf;
    forall e | e in d.attached ensures HasAttachment(b.attached, e) { AttachmentByKey(b.attached, e); }
    forall a | a in b.attached ensures HasAttachment(d.attached, a) { AttachmentByKey(d.attached, a); }
    assert forall i, j :: 0 <= i < j < |b.attached| ==> GroupIdOf(b.attached[i]) != GroupIdOf(b.attached[j]);
  }

  /** A settled balancer in plain fields. */
  lemma SettledInFields(c: CloudState, d: Balancer) returns (id: Id)
    requires ValidCloud(c) && Settled(c, d)
    ensures BalancersNamed(c, d.name) == {id} && id in c.balancers && c.balancers[id].kind == d.kind
    ensures Listening(c.balancers[id].listeners, d.listeners) && Attaching(c.balancers[id].attached, d.attached)
  {
    id :| BalancersNamed(c, d.name) == {id} && Matches(c.balancers[id], d) && OneToOne(c.balancers[id], d);
    assert id in BalancersNamed(c, d.name);
    hide OneToOne, Listening, Attaching;
    ListenersPair(c.balancers[id], d);
    AttachmentsPair(c.balancers[id], d);
  }

  /** What a completed pass leaves, in plain fields. */
  lemma CompletedInFields(c: CloudState, d: Balancer, after: CloudState) returns (id: Id)
    requires ValidCloud(c) && ValidBalancer(d) && AtMostOne(BalancersNamed(c, d.name))
    requires Performed(c, Plan(c, d), after)
    ensures BalancersNamed(after, d.name) == {id} && id in after.balancers
    ensures var b := after.balancers[id];
            b.kind == d.kind && Listening(b.listeners, d.listeners) && Attaching(b.attached, d.attached)
  {
    CompletePass(c, d);
    PerformAllKeepsValid(c, Plan(c, d));
    id := SettledInFields(after, d);
  }

  /** Only groups that were asked for are ever attached. */
  lemma MissingGroupsAreAsked(b: Balancer, d: Balancer)
    ensures forall g :: g in MissingGroups(b, d) ==> g in d.attached
  {
    NotNamedMembers(d.attached, FoundGroups(b, d), GroupIdOf);
  }

  // What the hypotheses are for

  const RENAMED_ACTUAL := Balancer("lb", External,
    [Listener("a", TCP, 80, 30080, false), Listener("b", TCP, 443, 30443, false)], [])
  const RENAMED_WANTED := Balancer("lb", External,
    [Listener("b", TCP, 80, 30080, false), Listener("a", TCP, 8443, 30443, false)], [])

  /** Two ports swap names and one of them moves: the listener that stays keeps the name that the
      moved one needs, and no number of passes ever settles the balancer. */
  lemma RenamedListenerBlocksForEver(c: CloudState, id: Id, ks: seq<nat>)
    requires ValidCloud(c) && BalancersNamed(c, "lb") == {id} && c.balancers[id] == RENAMED_ACTUAL
    requires Attempts(c, RENAMED_WANTED, ks)
    ensures ValidBalancer(RENAMED_WANTED) && !Settled(AfterAttempts(c, RENAMED_WANTED, ks), RENAMED_WANTED)
  {
    RenamedIsNotFree();
    hide Missing, Attempts, Plan, Settled, NamesFree, ValidBalancer, ValidCloud;
    StuckIffInfeasible(c, RENAMED_WANTED);
  }

  lemma RenamedIsNotFree()
    ensures ValidBalancer(RENAMED_WANTED) && !NamesFree(RENAMED_ACTUAL, RENAMED_WANTED)
  {
    hide Missing;
    var b, d := RENAMED_ACTUAL, RENAMED_WANTED;
    DistinctKeys(d);
    MissingMembers(b.listeners, d.listeners, NameOf, EndpointOf);
    assert b.listeners[0] in b.listeners && d.listeners[1] in d.listeners;
    assert EndpointOf(d.listeners[0]) == EndpointOf(b.listeners[0]) && d.listeners[0] in d.listeners;
    assert d.listeners[1] in MissingListeners(b, d);
  }

  /** A listener for each specification but one, under names of their own. */
  function Without(specs: seq<Listener>, j: nat): seq<Listener>
    requires j < |specs|
  {
    seq(|specs| - 1, i requires 0 <= i < |specs| - 1 => specs[Skipping(i, j)].(name := seq(i, _ => 'x')))
  }

  function Skipping(i: nat, j: nat): nat { if i < j then i else i + 1 }

  lemma WithoutAt(specs: seq<Listener>, j: nat, i: nat)
    requires j < |specs| && i < |specs| - 1
    ensures |Without(specs, j)| == |specs| - 1 && Skipping(i, j) < |specs|
    ensures var x, e := Without(specs, j)[i], specs[Skipping(i, j)];
            |NameOf(x)| == i && SlotOf(x) == SlotOf(e) && EndpointOf(x) == EndpointOf(e)
  {
  }

  lemma WithoutIsValid(d: Balancer, j: nat)
    requires j < |d.listeners| && DistinctBy(d.listeners, SlotOf) && DistinctBy(d.attached, GroupIdOf)
    ensures ValidBalancer(d.(listeners := Without(d.listeners, j)))
  {
    var ls := Without(d.listeners, j);
    forall i, k | 0 <= i < k < |ls| ensures NameOf(ls[i]) != NameOf(ls[k]) && SlotOf(ls[i]) != SlotOf(ls[k]) {
      WithoutAt(d.listeners, j, i);
      WithoutAt(d.listeners, j, k);
      assert SlotOf(d.listeners[Skipping(i, j)]) != SlotOf(d.listeners[Skipping(k, j)]);
    }
  }

  lemma KeysWithout(specs: seq<Listener>, j: nat)
    requires j < |specs| && DistinctBy(specs, EndpointOf)
    ensures Keys(Without(specs, j), EndpointOf) == Keys(specs, EndpointOf) - {EndpointOf(specs[j])}
  {
    var ls := Without(specs, j);
    assert |ls| == |specs| - 1;
    hide Without, EndpointOf;
    forall e | e in Keys(ls, EndpointOf) ensures e in Keys(specs, EndpointOf) && e != EndpointOf(specs[j]) {
      var i :| 0 <= i < |ls| && EndpointOf(ls[i]) == e;
      WithoutAt(specs, j, i);
      assert specs[Skipping(i, j)] in specs;
    }
    forall e | e in Keys(specs, EndpointOf) && e != EndpointOf(specs[j]) ensures e in Keys(ls, EndpointOf) {
      var k :| 0 <= k < |specs| && EndpointOf(specs[k]) == e;
      var i := if k < j then k else k - 1;
      WithoutAt(specs, j, i);
      assert ls[i] in ls;
    }
  }

  /** What a pass with nothing to do proves about the balancer: that it matches, for every balancer the
      cloud may hold, exactly if no two specifications share a name or some attachment asked for has no
      HTTP check, in which case there always is something to do. */
  lemma NothingToDoIsRightIff(id: Id, d: Balancer)
    requires DistinctBy(d.listeners, SlotOf) && DistinctBy(d.attached, GroupIdOf)
    ensures (forall b :: ValidBalancer(b) && UpdatePlan(id, b, d) == [] ==> Matches(b, d))
       <==> DistinctBy(d.listeners, NameOf) || !AllChecked(d)
  {
    if !AllChecked(d) {
      var g :| g in d.attached && !HasHttpCheck(g);
      forall b ensures UpdatePlan(id, b, d) != [] { UncheckedAlwaysLeft(id, b, d, g); }
    } else if DistinctBy(d.listeners, NameOf) {
      forall b | ValidBalancer(b) && UpdatePlan(id, b, d) == [] ensures Matches(b, d) { NothingToDo(id, b, d); }
    } else {
      var i, j :| 0 <= i < j < |d.listeners| && NameOf(d.listeners[i]) == NameOf(d.listeners[j]);
      var b := d.(listeners := Without(d.listeners, j));
      RepeatedNameHidesPort(id, d, i, j);
      assert ValidBalancer(b) && UpdatePlan(id, b, d) == [] && !Matches(b, d);
    }
  }

  lemma UncheckedAlwaysLeft(id: Id, b: Balancer, d: Balancer, g: AttachedGroup)
    requires DistinctBy(d.attached, GroupIdOf) && g in d.attached && !HasHttpCheck(g)
    ensures UpdatePlan(id, b, d) != []
  {
    var plain := d.(listeners := []);
    UncheckedIsMissing(b, plain, g);
    assert MissingGroups(b, plain) == MissingGroups(b, d);
    AssembleSize(id, UnwantedListeners(b, d), MissingListeners(b, d), UnwantedGroups(b, d), MissingGroups(b, d));
  }

  /** Two specifications under one name: the first one found hides that the second is missing, and
      a pass reports success with a port unserved. */
  lemma RepeatedNameHidesPort(id: Id, d: Balancer, i: nat, j: nat)
    requires DistinctBy(d.listeners, SlotOf) && DistinctBy(d.attached, GroupIdOf)
    requires i < j < |d.listeners| && d.listeners[i].name == d.listeners[j].name && AllChecked(d)
    ensures var b := d.(listeners := Without(d.listeners, j));
            ValidBalancer(b) && UpdatePlan(id, b, d) == [] && !Matches(b, d)
  {
    var b := d.(listeners := Without(d.listeners, j));
    WithoutIsValid(d, j);
    assert DistinctBy(d.listeners, EndpointOf) by { SlotsGiveEndpoints(d.listeners); }
    KeysWithout(d.listeners, j);
    HiddenByName(b.listeners, d.listeners, NameOf, EndpointOf, i, j);
    assert DistinctBy(d.attached, AttachmentKeyOf) by { GroupIdsGiveKeys(d.attached); }
    CheckedAll(d);
    DoneIffSameKeys(d.attached, d.attached, GroupIdOf, AttachmentKeyOf);
    AssembleSize(id, [], [], [], []);
    assert d.listeners[j] in d.listeners;
    assert EndpointOf(d.listeners[j]) in Keys(d.listeners, EndpointOf);
  }

  lemma SlotsGiveEndpoints(ls: seq<Listener>)
    requires DistinctBy(ls, SlotOf)
    ensures DistinctBy(ls, EndpointOf)
  {
    assert forall x, y :: SlotOf(x) != SlotOf(y) ==> EndpointOf(x) != EndpointOf(y);
  }

  lemma GroupIdsGiveKeys(gs: seq<AttachedGroup>)
    requires DistinctBy(gs, GroupIdOf)
    ensures DistinctBy(gs, AttachmentKeyOf)
  {
    assert forall x, y :: GroupIdOf(x) != GroupIdOf(y) ==> AttachmentKeyOf(x) != AttachmentKeyOf(y);
  }
}
