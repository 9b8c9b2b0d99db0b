/**
 What holds over every run of the controller.  A run is a sequence of phases; a phase is one call of
 ensure, update or delete for one service, seen as the requests that took effect, wherever the call
 was cut off.  Lawful says under which circumstances the controller sends a request at all.
 */
module Runs {
  import opened Seqs
  import opened Cloud
  import opened BalancerPlan
  import opened TargetGroups
  import opened TargetGroupService
  import opened Grouping

  /** What a call works on: its service's balancer name, the balancer names of the services that the
      lister reports as active, the cluster name. */
  datatype Scope = Scope(balancer: string, active: set<string>, cluster: string)

  ghost predicate GroupsExist(c: CloudState, attached: seq<AttachedGroup>) {
    forall a :: a in attached ==> a.groupId in c.groups
  }

  ghost predicate Lawful(c: CloudState, r: Request, sc: Scope) {
    if IsEdit(r) then
      r.id in BalancersNamed(c, sc.balancer) && (r.AttachGroup? ==> r.attachment.groupId in c.groups)
    else
      match r
      case CreateBalancer(b) => b.name == sc.balancer && BalancersNamed(c, b.name) == {} && GroupsExist(c, b.attached)
      case DeleteBalancer(id) => id in BalancersNamed(c, sc.balancer)
      case CreateGroup(g) => GroupsNamed(c, g.name) == {}
      case DeleteGroup(id) => sc.active == {} && id in c.groups && Contains(c.groups[id].name, sc.cluster)
      case _ => true
  }

  ghost predicate LawfulRun(c: CloudState, rs: seq<Request>, sc: Scope)
    decreases rs
  {
    rs != [] ==> Accepts(c, rs[0]) && Lawful(c, rs[0], sc) && LawfulRun(Perform(c, rs[0]), rs[1..], sc)
  }

  lemma {:induction false} LawfulIsAccepted(c: CloudState, rs: seq<Request>, sc: Scope)
    requires LawfulRun(c, rs, sc)
    ensures AcceptsAll(c, rs)
    decreases rs
  {
    if rs != [] {
      LawfulIsAccepted(Perform(c, rs[0]), rs[1..], sc);
    }
  }

  lemma {:induction false} LawfulAppend(c: CloudState, rs: seq<Request>, mid: CloudState, more: seq<Request>, sc: Scope)
    requires LawfulRun(c, rs, sc) && Performed(c, rs, mid) && LawfulRun(mid, more, sc)
    ensures LawfulRun(c, rs + more, sc)
    decreases rs
  {
    if rs == [] {
      assert rs + more == more;
    } else {
      LawfulAppend(Perform(c, rs[0]), rs[1..], mid, more, sc);
      assert (rs + more)[1..] == rs[1..] + more;
    }
  }

  // The three kinds of pass send lawful requests only

  lemma {:induction false} EditsAreLawful(c: CloudState, rs: seq<Request>, id: Id, sc: Scope)
    requires AcceptsAll(c, rs) && id in BalancersNamed(c, sc.balancer)
    requires forall r :: r in rs ==> IsEdit(r) && r.id == id && (r.AttachGroup? ==> r.attachment.groupId in c.groups)
    ensures LawfulRun(c, rs, sc)
    decreases rs
  {
    if rs != [] {
      assert rs[0] in rs;
      EditsAreLawful(Perform(c, rs[0]), rs[1..], id, sc);
    }
  }

  lemma BalancerPassIsLawful(c: CloudState, d: Balancer, k: nat, sc: Scope)
    requires ValidCloud(c) && AtMostOne(BalancersNamed(c, d.name)) && d.name == sc.balancer
    requires GroupsExist(c, d.attached)
    requires k <= |Plan(c, d)| && AcceptsAll(c, Plan(c, d)[..k])
    ensures LawfulRun(c, Plan(c, d)[..k], sc)
  {
    if id :| id in BalancersNamed(c, d.name) {
      assert BalancersNamed(c, d.name) == {id};
      if c.balancers[id].kind == d.kind {
        UpdatePassIsLawful(c, d, id, k, sc);
      } else {
        ReplacePassIsLawful(c, d, id, k, sc);
      }
    } else {
      PlanOfNone(c, d);
      assert k > 0 ==> Plan(c, d)[..k][1..] == [];
    }
  }

  lemma UpdatePassIsLawful(c: CloudState, d: Balancer, id: Id, k: nat, sc: Scope)
    requires BalancersNamed(c, d.name) == {id} && c.balancers[id].kind == d.kind
    requires d.name == sc.balancer && GroupsExist(c, d.attached)
    requires k <= |Plan(c, d)| && AcceptsAll(c, Plan(c, d)[..k])
    ensures LawfulRun(c, Plan(c, d)[..k], sc)
  {
    PlanOfNamed(c, d, id);
    var b, rs := c.balancers[id], Plan(c, d)[..k];
    MissingGroupsAreAsked(b, d);
    EditsOnly(id, UnwantedListeners(b, d), MissingListeners(b, d), UnwantedGroups(b, d), MissingGroups(b, d));
    hide Assemble, UnwantedListeners, MissingListeners, UnwantedGroups, MissingGroups;
    forall r | r in rs ensures IsEdit(r) && r.id == id && (r.AttachGroup? ==> r.attachment.groupId in c.groups) {
      assert r in Plan(c, d);
    }
    EditsAreLawful(c, rs, id, sc);
  }

  lemma EditsOnly(id: Id, us: seq<Listener>, ms: seq<Listener>, ds: seq<AttachedGroup>, gs: seq<AttachedGroup>)
    ensures forall r :: r in Assemble(id, us, ms, ds, gs) ==>
              IsEdit(r) && r.id == id && (r.AttachGroup? ==> r.attachment in gs)
  {
  }

  lemma ReplacePassIsLawful(c: CloudState, d: Balancer, id: Id, k: nat, sc: Scope)
    requires BalancersNamed(c, d.name) == {id} && c.balancers[id].kind != d.kind
    requires d.name == sc.balancer && GroupsExist(c, d.attached)
    requires k <= |Plan(c, d)| && AcceptsAll(c, Plan(c, d)[..k])
    ensures LawfulRun(c, Plan(c, d)[..k], sc)
  {
    PlanOfReplaced(c, d, id);
    var rs := Plan(c, d)[..k];
    if k > 0 {
      var next := Perform(c, DeleteBalancer(id));
      assert BalancersNamed(next, d.name) == {};
      assert rs[1..] == if k == 1 then [] else [CreateBalancer(d)];
      if k == 2 { PerformedOne(next, CreateBalancer(d), PerformAll(c, rs)); }
    }
  }

  lemma GroupPassIsLawful(c: CloudState, name: string, wanted: seq<Target>, plan: seq<Request>, k: nat, sc: Scope)
    requires IsGroupPlan(c, name, wanted, plan) && k <= |plan| && AcceptsAll(c, plan[..k])
    ensures LawfulRun(c, plan[..k], sc)
  {
    var rs := plan[..k];
    if id :| id in GroupsNamed(c, name) {
      assert GroupsNamed(c, name) == {id};
      var toAdd, toRemove := UpdatePlanIs(c, name, wanted, plan, id);
      TargetChangesAreLawful(c, rs, sc);
    } else {
      assert rs != [] ==> rs[1..] == [];
    }
  }

  lemma {:induction false} TargetChangesAreLawful(c: CloudState, rs: seq<Request>, sc: Scope)
    requires AcceptsAll(c, rs) && forall r :: r in rs ==> r.AddTargets? || r.RemoveTargets?
    ensures LawfulRun(c, rs, sc)
    decreases rs
  {
    if rs != [] {
      assert rs[0] in rs;
      TargetChangesAreLawful(Perform(c, rs[0]), rs[1..], sc);
    }
  }

  // Consequences, request by request

  ghost predicate UniqueBalancers(c: CloudState) {
    forall i, j :: i in c.balancers && j in c.balancers && c.balancers[i].name == c.balancers[j].name ==> i == j
  }

  /** The balancers that do not bear this name. */
  ghost function Others(c: CloudState, name: string): map<Id, Balancer> {
    map id | id in c.balancers && c.balancers[id].name != name :: c.balancers[id]
  }

  /** Every group attached to a balancer of one of these names is a group of the cloud. */
  ghost predicate Integrity(c: CloudState, owned: set<string>) {
    forall id :: id in c.balancers && c.balancers[id].name in owned ==> GroupsExist(c, c.balancers[id].attached)
  }

  /** Every balancer of one of these names belongs to a service that the lister reports as active. */
  ghost predicate OwnersActive(c: CloudState, owned: set<string>, sc: Scope) {
    forall id :: id in c.balancers && c.balancers[id].name in owned ==> c.balancers[id].name in sc.active
  }

  /** The same except for the balancer of the service the call is for. */
  ghost predicate OthersActive(c: CloudState, owned: set<string>, sc: Scope) {
    OwnersActive(c, owned - {sc.balancer}, sc)
  }

  lemma StepKeepsBalancersUnique(c: CloudState, r: Request, sc: Scope)
    requires ValidCloud(c) && UniqueBalancers(c) && Accepts(c, r) && Lawful(c, r, sc)
    ensures UniqueBalancers(Perform(c, r))
  {
    hide ValidBalancer, AcceptsEdit, GroupsExist, Contains;
    if r.CreateBalancer? {
      assert forall i :: i in c.balancers && c.balancers[i].name == r.balancer.name ==>
        i in BalancersNamed(c, r.balancer.name);
    }
  }

  lemma StepKeepsGroupsUnique(c: CloudState, r: Request, sc: Scope)
    requires ValidCloud(c) && UniqueGroups(c) && Accepts(c, r) && Lawful(c, r, sc)
    ensures UniqueGroups(Perform(c, r))
  {
    hide ValidBalancer, AcceptsEdit, GroupsExist, Contains, Edit;
    if r.CreateGroup? {
      assert forall i :: i in c.groups && c.groups[i].name == r.group.name ==> i in GroupsNamed(c, r.group.name);
    }
  }

  lemma StepKeepsNamesUnique(c: CloudState, r: Request, sc: Scope)
    requires ValidCloud(c) && UniqueBalancers(c) && UniqueGroups(c) && Accepts(c, r) && Lawful(c, r, sc)
    ensures UniqueBalancers(Perform(c, r)) && UniqueGroups(Perform(c, r))
  {
    hide *;
    StepKeepsBalancersUnique(c, r, sc);
    StepKeepsGroupsUnique(c, r, sc);
  }

  lemma StepIsolates(c: CloudState, r: Request, sc: Scope)
    requires ValidCloud(c) && Accepts(c, r) && Lawful(c, r, sc)
    ensures Others(Perform(c, r), sc.balancer) == Others(c, sc.balancer)
  {
  }

  /** What the hypothesis on deletions below is for: a clean-up that deletes every group with the name of
      the cluster leaves an attachment dangling exactly if a balancer is attached to such a group. */
  lemma CleanUpBreaksIffAttached(c: CloudState, owned: set<string>, cluster: string)
    requires Integrity(c, owned)
    ensures Integrity(c.(groups := map id | id in c.groups && !Contains(c.groups[id].name, cluster) :: c.groups[id]),
                      owned) <==>
            !exists id, a :: id in c.balancers && c.balancers[id].name in owned && a in c.balancers[id].attached
                             && a.groupId in c.groups && Contains(c.groups[a.groupId].name, cluster)
  {
    hide Contains;
    var after := c.(groups := map id | id in c.groups && !Contains(c.groups[id].name, cluster) :: c.groups[id]);
    if id, a :| id in c.balancers && c.balancers[id].name in owned && a in c.balancers[id].attached
                && a.groupId in c.groups && Contains(c.groups[a.groupId].name, cluster) {
      assert !GroupsExist(after, after.balancers[id].attached);
    } else {
      forall id | id in c.balancers && c.balancers[id].name in owned
        ensures GroupsExist(after, c.balancers[id].attached)
      {
        assert GroupsExist(c, c.balancers[id].attached);
      }
    }
  }

  lemma StepKeepsIntegrity(c: CloudState, r: Request, owned: set<string>, sc: Scope)
    requires Integrity(c, owned) && Accepts(c, r) && Lawful(c, r, sc)
    requires r.DeleteGroup? ==> OwnersActive(c, owned, sc)
    ensures Integrity(Perform(c, r), owned)
  {
    var after := Perform(c, r);
    forall id | id in after.balancers && after.balancers[id].name in owned
      ensures GroupsExist(after, after.balancers[id].attached)
    {
      assert id in c.balancers && c.balancers[id].name in owned ==> GroupsExist(c, c.balancers[id].attached);
      if r.DetachGroup? && r.id == id {
        forall a | a in after.balancers[id].attached ensures a.groupId in after.groups {
          WithoutNameMembers(c.balancers[id].attached, GroupIdOf, r.groupId, a);
        }
      }
    }
  }

  // Consequences for whole runs

  datatype Phase = Phase(scope: Scope, requests: seq<Request>)

  ghost predicate IsRun(c: CloudState, phases: seq<Phase>)
    decreases |phases|
  {
    phases != [] ==>
      && LawfulRun(c, phases[0].requests, phases[0].scope) && AcceptsAll(c, phases[0].requests)
      && IsRun(PerformAll(c, phases[0].requests), phases[1..])
  }

  ghost function EndOf(c: CloudState, phases: seq<Phase>): CloudState
    requires IsRun(c, phases)
    decreases |phases|
  {
    if phases == [] then c else EndOf(PerformAll(c, phases[0].requests), phases[1..])
  }

  lemma {:induction false} PhaseKeepsNamesUnique(c: CloudState, rs: seq<Request>, sc: Scope)
    requires ValidCloud(c) && UniqueBalancers(c) && UniqueGroups(c) && LawfulRun(c, rs, sc) && AcceptsAll(c, rs)
    ensures var after := PerformAll(c, rs); ValidCloud(after) && UniqueBalancers(after) && UniqueGroups(after)
    ensures Others(PerformAll(c, rs), sc.balancer) == Others(c, sc.balancer)
    decreases rs
  {
    if rs != [] {
      PerformKeepsValid(c, rs[0]);
      StepKeepsNamesUnique(c, rs[0], sc);
      StepIsolates(c, rs[0], sc);
      PhaseKeepsNamesUnique(Perform(c, rs[0]), rs[1..], sc);
    }
  }

  /** Over every run at most one balancer and at most one group bear a name, and balancers whose name
      is not that of a called service are left as they were. */
  lemma {:induction false} ServiceIsolation(c: CloudState, phases: seq<Phase>, name: string)
    requires ValidCloud(c) && UniqueBalancers(c) && UniqueGroups(c) && IsRun(c, phases)
    ensures var after := EndOf(c, phases); ValidCloud(after) && UniqueBalancers(after) && UniqueGroups(after)
    ensures (forall p :: p in phases ==> p.scope.balancer != name) ==>
              && BalancersNamed(EndOf(c, phases), name) == BalancersNamed(c, name)
              && forall id :: id in BalancersNamed(c, name) ==> EndOf(c, phases).balancers[id] == c.balancers[id]
    decreases |phases|
  {
    if phases != [] {
      var p := phases[0];
      var next := PerformAll(c, p.requests);
      PhaseKeepsNamesUnique(c, p.requests, p.scope);
      ServiceIsolation(next, phases[1..], name);
      if p.scope.balancer != name {
        forall id
          ensures id in BalancersNamed(c, name) <==>
                id in Others(c, p.scope.balancer) && Others(c, p.scope.balancer)[id].name == name
        { }
        forall id
          ensures id in BalancersNamed(next, name) <==>
                id in Others(next, p.scope.balancer) && Others(next, p.scope.balancer)[id].name == name
        { }
      }
      assert p in phases;
    }
  }

  /** Whenever a group is deleted, every owned balancer belongs to an active service. */
  ghost predicate HonestPhase(c: CloudState, rs: seq<Request>, owned: set<string>, sc: Scope)
    requires AcceptsAll(c, rs)
    decreases rs
  {
    rs != [] ==>
      (rs[0].DeleteGroup? ==> OwnersActive(c, owned, sc)) && HonestPhase(Perform(c, rs[0]), rs[1..], owned, sc)
  }

  ghost predicate HonestRun(c: CloudState, phases: seq<Phase>, owned: set<string>)
    requires IsRun(c, phases)
    decreases |phases|
  {
    phases != [] ==>
      && HonestPhase(c, phases[0].requests, owned, phases[0].scope)
      && HonestRun(PerformAll(c, phases[0].requests), phases[1..], owned)
  }

  lemma {:induction false} HonestAppend(c: CloudState, rs: seq<Request>, mid: CloudState, more: seq<Request>,
                                        owned: set<string>, sc: Scope)
    requires Performed(c, rs, mid) && AcceptsAll(mid, more) && AcceptsAll(c, rs + more)
    requires HonestPhase(c, rs, owned, sc) && HonestPhase(mid, more, owned, sc)
    ensures HonestPhase(c, rs + more, owned, sc)
    decreases rs
  {
    if rs == [] {
      assert rs + more == more;
    } else {
      assert (rs + more)[1..] == rs[1..] + more;
      HonestAppend(Perform(c, rs[0]), rs[1..], mid, more, owned, sc);
    }
  }

  predicate GroupRequests(rs: seq<Request>) {
    forall r :: r in rs ==> r.CreateGroup? || r.AddTargets? || r.RemoveTargets? || r.DeleteGroup?
  }

  /** Group requests leave the owners of balancers as they are, so a sync is honest if its start is. */
  lemma {:induction false} SyncIsHonest(c: CloudState, rs: seq<Request>, owned: set<string>, sc: Scope)
    requires AcceptsAll(c, rs) && GroupRequests(rs) && OwnersActive(c, owned, sc)
    ensures HonestPhase(c, rs, owned, sc)
    decreases rs
  {
    if rs != [] {
      assert rs[0] in rs;
      SyncIsHonest(Perform(c, rs[0]), rs[1..], owned, sc);
    }
  }

  lemma {:induction false} NoDeletionIsHonest(c: CloudState, rs: seq<Request>, owned: set<string>, sc: Scope)
    requires AcceptsAll(c, rs) && forall r :: r in rs ==> !r.DeleteGroup?
    ensures HonestPhase(c, rs, owned, sc)
    decreases rs
  {
    if rs != [] {
      assert rs[0] in rs;
      NoDeletionIsHonest(Perform(c, rs[0]), rs[1..], owned, sc);
    }
  }

  lemma {:induction false} PhaseKeepsIntegrity(c: CloudState, rs: seq<Request>, owned: set<string>, sc: Scope)
    requires Integrity(c, owned) && LawfulRun(c, rs, sc) && AcceptsAll(c, rs) && HonestPhase(c, rs, owned, sc)
    ensures Integrity(PerformAll(c, rs), owned)
    decreases rs
  {
    if rs != [] {
      StepKeepsIntegrity(c, rs[0], owned, sc);
      PhaseKeepsIntegrity(Perform(c, rs[0]), rs[1..], owned, sc);
    }
  }

  /** A phase cut off anywhere is a phase, so what holds at the end of every run holds at every point. */
  lemma {:induction false} CutPhase(c: CloudState, rs: seq<Request>, owned: set<string>, sc: Scope, k: nat)
    requires LawfulRun(c, rs, sc) && AcceptsAll(c, rs) && HonestPhase(c, rs, owned, sc) && k <= |rs|
    ensures LawfulRun(c, rs[..k], sc) && AcceptsAll(c, rs[..k]) && HonestPhase(c, rs[..k], owned, sc)
    decreases rs
  {
    if k > 0 {
      CutPhase(Perform(c, rs[0]), rs[1..], owned, sc, k - 1);
      assert rs[..k][1..] == rs[1..][..k - 1];
    }
  }

  /** Over every honest run, cut off wherever, each group attached to an owned balancer exists,
      whatever other balancers the cloud holds. */
  lemma {:induction false} ReferentialIntegrity(c: CloudState, phases: seq<Phase>, owned: set<string>)
    requires Integrity(c, owned) && IsRun(c, phases) && HonestRun(c, phases, owned)
    ensures Integrity(EndOf(c, phases), owned)
    decreases |phases|
  {
    if phases != [] {
      PhaseKeepsIntegrity(c, phases[0].requests, owned, phases[0].scope);
      ReferentialIntegrity(PerformAll(c, phases[0].requests), phases[1..], owned);
    }
  }
}
