/** The target group calls of pkg/yapi/loadbalancer.go and what they do to the groups seen by name. */
module TargetGroupService {
  import opened Seqs
  import opened Cloud
  import opened Claims
  import opened TargetGroups
  import opened Grouping

  // The groups by name

  ghost predicate UniqueGroups(c: CloudState) {
    forall i, j :: i in c.groups && j in c.groups && c.groups[i].name == c.groups[j].name ==> i == j
  }

  ghost predicate PlainSubnets(c: CloudState) {
    forall id, t :: id in c.groups && t in c.groups[id].targets ==> NoColon(t.subnetId)
  }

  ghost function GroupNames(c: CloudState): set<string> { set id | id in c.groups :: c.groups[id].name }

  ghost function TargetsNamed(c: CloudState, n: string): set<Target> {
    set id, t | id in c.groups && c.groups[id].name == n && t in c.groups[id].targets :: t
  }

  /** Which targets are filed under which group name. */
  ghost function GroupView(c: CloudState): map<string, set<Target>> {
    map n | n in GroupNames(c) :: TargetsNamed(c, n)
  }

  /** Groups keep their id and name. */
  ghost predicate KeepsGroups(c: CloudState, after: CloudState) {
    forall id :: id in c.groups ==> id in after.groups && after.groups[id].name == c.groups[id].name
  }

  lemma SameGroupsSameView(c: CloudState, after: CloudState)
    requires after.groups == c.groups
    ensures GroupView(after) == GroupView(c)
    ensures UniqueGroups(after) <==> UniqueGroups(c)
    ensures PlainSubnets(after) <==> PlainSubnets(c)
    ensures forall n :: GroupsNamed(after, n) == GroupsNamed(c, n)
  {
    assert GroupNames(after) == GroupNames(c);
    assert forall n :: TargetsNamed(after, n) == TargetsNamed(c, n);
  }

  lemma NamedIsView(c: CloudState, id: Id)
    requires UniqueGroups(c) && id in c.groups
    ensures GroupsNamed(c, c.groups[id].name) == {id}
    ensures c.groups[id].name in GroupView(c) && GroupView(c)[c.groups[id].name] == Targets(c.groups[id].targets)
  {
  }

  lemma ViewFromParts(c: CloudState, after: CloudState, name: string, ts: set<Target>)
    requires GroupNames(after) == GroupNames(c) + {name}
    requires forall n :: TargetsNamed(after, n) == if n == name then ts else TargetsNamed(c, n)
    ensures GroupView(after) == GroupView(c)[name := ts]
  {
    hide GroupNames, TargetsNamed;
  }

  lemma TargetsOfSet(c: CloudState, id: Id, g: TargetGroup, n: string)
    requires UniqueGroups(c) && id in c.groups && g.name == c.groups[id].name
    ensures TargetsNamed(SetGroup(c, id, g), n) == if n == g.name then Targets(g.targets) else TargetsNamed(c, n)
  {
    var after := SetGroup(c, id, g);
    assert after.groups[id] == g && forall i :: i in c.groups && i != id ==> after.groups[i] == c.groups[i];
    assert forall i :: i in after.groups && after.groups[i].name == g.name ==> i == id;
    if n == g.name {
      assert TargetsNamed(after, n) == Targets(g.targets);
    } else {
      assert TargetsNamed(after, n) == TargetsNamed(c, n);
    }
  }

  lemma NamesOfSet(c: CloudState, id: Id, g: TargetGroup)
    requires UniqueGroups(c) && id in c.groups && g.name == c.groups[id].name
    ensures UniqueGroups(SetGroup(c, id, g)) && GroupNames(SetGroup(c, id, g)) == GroupNames(c) + {g.name}
  {
    assert forall i :: i in c.groups ==> SetGroup(c, id, g).groups[i].name == c.groups[i].name;
  }

  lemma ViewOfSet(c: CloudState, id: Id, g: TargetGroup)
    requires UniqueGroups(c) && id in c.groups && g.name == c.groups[id].name
    ensures UniqueGroups(SetGroup(c, id, g))
    ensures GroupView(SetGroup(c, id, g)) == GroupView(c)[g.name := Targets(g.targets)]
  {
    hide *;
    NamesOfSet(c, id, g);
    forall n
      ensures TargetsNamed(SetGroup(c, id, g), n) ==
              if n == g.name then Targets(g.targets) else TargetsNamed(c, n)
    {
      TargetsOfSet(c, id, g, n);
    }
    ViewFromParts(c, SetGroup(c, id, g), g.name, Targets(g.targets));
  }

  /** The cloud with one more group. */
  function WithGroup(c: CloudState, g: TargetGroup): CloudState {
    c.(groups := c.groups[c.nextId := g], nextId := c.nextId + 1)
  }

  lemma FreshName(c: CloudState, name: string)
    requires GroupsNamed(c, name) == {}
    ensures forall i :: i in c.groups ==> c.groups[i].name != name
  {
    forall i | i in c.groups ensures c.groups[i].name != name { assert i !in GroupsNamed(c, name); }
  }

  lemma TargetsOfCreate(c: CloudState, g: TargetGroup, n: string)
    requires c.nextId !in c.groups && forall i :: i in c.groups ==> c.groups[i].name != g.name
    ensures TargetsNamed(WithGroup(c, g), n) == if n == g.name then Targets(g.targets) else TargetsNamed(c, n)
  {
    var after := WithGroup(c, g);
    assert after.groups[c.nextId] == g;
    assert forall i :: i in c.groups ==> i in after.groups && after.groups[i] == c.groups[i];
  }

  lemma NamesOfCreate(c: CloudState, g: TargetGroup)
    requires c.nextId !in c.groups && UniqueGroups(c) && forall i :: i in c.groups ==> c.groups[i].name != g.name
    ensures UniqueGroups(WithGroup(c, g)) && GroupNames(WithGroup(c, g)) == GroupNames(c) + {g.name}
  {
    var after := WithGroup(c, g);
    assert after.groups[c.nextId] == g && c.nextId in after.groups;
    forall n | n in GroupNames(c) ensures n in GroupNames(after) {
      var i :| i in c.groups && c.groups[i].name == n;
      assert i in after.groups && after.groups[i].name == n;
    }
  }

  lemma ViewOfCreate(c: CloudState, g: TargetGroup)
    requires ValidCloud(c) && UniqueGroups(c) && GroupsNamed(c, g.name) == {}
    ensures UniqueGroups(WithGroup(c, g)) && GroupView(WithGroup(c, g)) == GroupView(c)[g.name := Targets(g.targets)]
  {
    NextIdIsFree(c);
    hide *;
    FreshName(c, g.name);
    NamesOfCreate(c, g);
    forall n
      ensures TargetsNamed(WithGroup(c, g), n) ==
              if n == g.name then Targets(g.targets) else TargetsNamed(c, n)
    {
      TargetsOfCreate(c, g, n);
    }
    ViewFromParts(c, WithGroup(c, g), g.name, Targets(g.targets));
  }

  lemma NextIdIsFree(c: CloudState)
    requires ValidCloud(c)
    ensures c.nextId !in c.groups
  {
  }

  /** Only what is filed under one name may differ; balancers, ids and names of groups stay. */
  ghost predicate TouchesOnly(c: CloudState, name: string, after: CloudState) {
    && after.balancers == c.balancers && KeepsGroups(c, after) && UniqueGroups(after)
    && GroupView(after) - {name} == GroupView(c) - {name}
  }

  lemma ViewMinus(view: map<string, set<Target>>, name: string, ts: set<Target>)
    ensures view[name := ts] - {name} == view - {name}
  {
  }

  lemma UpdateTouchesOnly(c: CloudState, id: Id, g: TargetGroup)
    requires UniqueGroups(c) && id in c.groups && g.name == c.groups[id].name
    ensures TouchesOnly(c, g.name, SetGroup(c, id, g)) && g.name in GroupView(SetGroup(c, id, g))
  {
    hide GroupView, UniqueGroups, Targets;
    ViewOfSet(c, id, g);
    ViewMinus(GroupView(c), g.name, Targets(g.targets));
  }

  lemma CreateTouchesOnly(c: CloudState, g: TargetGroup)
    requires ValidCloud(c) && UniqueGroups(c) && GroupsNamed(c, g.name) == {}
    ensures TouchesOnly(c, g.name, WithGroup(c, g)) && g.name in GroupView(WithGroup(c, g))
  {
    hide GroupView, UniqueGroups, Targets, ValidCloud, GroupsNamed;
    ViewOfCreate(c, g);
    ViewMinus(GroupView(c), g.name, Targets(g.targets));
    NextIdIsFree(c);
  }

  /** A pass, cut short or not, touches the group of its name only and keeps ids. */
  lemma PassTouchesOneGroup(c: CloudState, name: string, wanted: seq<Target>, plan: seq<Request>, k: nat,
                            after: CloudState)
    requires ValidCloud(c) && UniqueGroups(c) && IsGroupPlan(c, name, wanted, plan)
    requires k <= |plan| && Performed(c, plan[..k], after)
    ensures TouchesOnly(c, name, after)
    ensures k > 0 ==> name in GroupView(after)
  {
    if id :| id in GroupsNamed(c, name) {
      NamedIsView(c, id);
      NothingWantedIsDropped(c, name, wanted, plan, id, k, after);
      UpdateTouchesOnly(c, id, after.groups[id]);
    } else if k > 0 {
      assert plan[..k] == [CreateGroup(TargetGroup(name, wanted))];
      PerformedOne(c, plan[0], after);
      CreateTouchesOnly(c, TargetGroup(name, wanted));
    }
  }

  lemma PassKeepsPlainSubnets(c: CloudState, name: string, wanted: seq<Target>, plan: seq<Request>, k: nat,
                              after: CloudState)
    requires ValidCloud(c) && UniqueGroups(c) && IsGroupPlan(c, name, wanted, plan)
    requires k <= |plan| && Performed(c, plan[..k], after)
    requires PlainSubnets(c) && forall t :: t in wanted ==> NoColon(t.subnetId)
    ensures PlainSubnets(after)
  {
    if id :| id in GroupsNamed(c, name) {
      NamedIsView(c, id);
      NothingWantedIsDropped(c, name, wanted, plan, id, k, after);
    } else if k > 0 {
      assert plan[..k] == [CreateGroup(TargetGroup(name, wanted))];
      PerformedOne(c, plan[0], after);
    }
  }

  /** A completed pass puts exactly the wanted targets under its name. */
  lemma PassCompletes(c: CloudState, name: string, wanted: seq<Target>, plan: seq<Request>, after: CloudState)
    requires ValidCloud(c) && UniqueGroups(c) && IsGroupPlan(c, name, wanted, plan) && Performed(c, plan, after)
    requires PlainSubnets(c) && forall t :: t in wanted ==> NoColon(t.subnetId)
    ensures GroupView(after) == GroupView(c)[name := Targets(wanted)]
    ensures name in GroupView(c) && GroupView(c)[name] == Targets(wanted) ==> plan == [] && after == c
  {
    if id :| id in GroupsNamed(c, name) {
      NamedIsView(c, id);
      UpdateCompletes(c, name, wanted, plan, id, after);
    } else {
      PerformedOne(c, plan[0], after);
      ViewOfCreate(c, TargetGroup(name, wanted));
      assert forall id :: id in c.groups ==> id !in GroupsNamed(c, name);
      assert name !in GroupNames(c);
    }
    hide GroupView;
  }

  lemma UpdateCompletes(c: CloudState, name: string, wanted: seq<Target>, plan: seq<Request>, id: Id, after: CloudState)
    requires UniqueGroups(c) && IsGroupPlan(c, name, wanted, plan) && Performed(c, plan, after)
    requires GroupsNamed(c, name) == {id}
    requires PlainSubnets(c) && forall t :: t in wanted ==> NoColon(t.subnetId)
    ensures GroupView(after) == GroupView(c)[name := Targets(wanted)]
    ensures name in GroupView(c) && GroupView(c)[name] == Targets(wanted) ==> plan == [] && after == c
  {
    assert id in GroupsNamed(c, name) && plan[..|plan|] == plan;
    NoColonIsUnambiguous(wanted, c.groups[id].targets);
    NamedIsView(c, id);
    assert Performed(c, [], c);
    hide GroupView, IsGroupPlan, Unambiguous, Targets, UniqueGroups, PlainSubnets, Uids;
    NothingWantedIsDropped(c, name, wanted, plan, id, |plan|, after);
    UpdateExactIffUnambiguous(c, name, wanted, plan, id, after);
    ViewOfSet(c, id, after.groups[id]);
    if Targets(c.groups[id].targets) == Targets(wanted) {
      NothingToUpdate(c, name, wanted, plan, id);
    }
  }

  lemma PassReaches(c: CloudState, name: string, wanted: seq<Target>, plan: seq<Request>, k: nat, after: CloudState)
    requires ValidCloud(c) && UniqueGroups(c) && PlainSubnets(c) && IsGroupPlan(c, name, wanted, plan)
    requires k <= |plan| && Performed(c, plan[..k], after) && forall t :: t in wanted ==> NoColon(t.subnetId)
    ensures Reached(GroupView(c), name, Targets(wanted), GroupView(after))
  {
    if k == |plan| {
      assert plan[..k] == plan;
      PassCompletes(c, name, wanted, plan, after);
    } else if k > 0 {
      var id := ExistingGroup(c, name, wanted, plan, k);
      OnlyAdded(c, name, wanted, plan, id, after);
    }
    hide GroupView, Targets;
  }

  lemma ExistingGroup(c: CloudState, name: string, wanted: seq<Target>, plan: seq<Request>, k: nat) returns (id: Id)
    requires UniqueGroups(c) && IsGroupPlan(c, name, wanted, plan) && 0 < k < |plan|
    ensures GroupsNamed(c, name) == {id} && |plan| == 2 && k == 1
  {
    id :| id in GroupsNamed(c, name);
    NamedIsView(c, id);
    var toAdd, toRemove := UpdatePlanIs(c, name, wanted, plan, id);
  }

  lemma TargetsAppend(xs: seq<Target>, ys: seq<Target>)
    ensures Targets(xs + ys) == Targets(xs) + Targets(ys)
  {
  }

  /** Between the two requests of an update the group holds what it held and what is wanted. */
  lemma OnlyAdded(c: CloudState, name: string, wanted: seq<Target>, plan: seq<Request>, id: Id, after: CloudState)
    requires UniqueGroups(c) && PlainSubnets(c) && IsGroupPlan(c, name, wanted, plan) && GroupsNamed(c, name) == {id}
    requires |plan| == 2 && Performed(c, plan[..1], after) && forall t :: t in wanted ==> NoColon(t.subnetId)
    ensures name in GroupView(c) && GroupView(after) == GroupView(c)[name := GroupView(c)[name] + Targets(wanted)]
  {
    var toAdd, toRemove := UpdatePlanIs(c, name, wanted, plan, id);
    assert id in GroupsNamed(c, name);
    var g := c.groups[id];
    UpdateEffect(c, id, toAdd, toRemove, 1, after);
    OnlyInIsDifference(wanted, g.targets, toAdd);
    TargetsAppend(g.targets, toAdd);
    assert Targets(g.targets + toAdd) == Targets(g.targets) + Targets(wanted);
    NamedIsView(c, id);
    ViewOfSet(c, id, g.(targets := g.targets + toAdd));
    hide GroupView, Targets;
  }

  lemma UnclaimedIsClaimable(c: CloudState, id: Id, name: string, ts: seq<Target>)
    requires forall i :: i in c.groups ==> (i == id <==> c.groups[i].name == name)
    ensures Unclaimed(c, id, ts) <==> Claimable(GroupView(c), name, Targets(ts))
  {
    if Unclaimed(c, id, ts) {
      forall k | k in GroupView(c) && k != name ensures Targets(ts) !! GroupView(c)[k] {
        forall t | t in GroupView(c)[k] ensures t !in ts {
          var i :| i in c.groups && c.groups[i].name == k && t in c.groups[i].targets;
        }
      }
    }
    if Claimable(GroupView(c), name, Targets(ts)) {
      forall i, t | i in c.groups && i != id && t in ts ensures t !in c.groups[i].targets {
        assert c.groups[i].name in GroupView(c) && t in Targets(ts);
      }
    }
  }

  /** The cloud's rule for targets, by name: no target is in two groups. */
  lemma CloudIsApart(c: CloudState)
    requires ValidCloud(c) && UniqueGroups(c)
    ensures Apart(GroupView(c))
  {
    forall j, k | j in GroupView(c) && k in GroupView(c) && j != k ensures GroupView(c)[j] !! GroupView(c)[k] {
      var id :| id in c.groups && c.groups[id].name == j;
      NamedIsView(c, id);
      assert forall i :: i in c.groups && c.groups[i].name == j ==> i in GroupsNamed(c, j);
      assert Unclaimed(c, id, c.groups[id].targets);
      UnclaimedIsClaimable(c, id, j, c.groups[id].targets);
    }
  }

  /** A sync that completed proves that no target is wanted for two groups and that no group outside the
      mapping holds a wanted one: such a sync the cloud never lets through. */
  lemma CompletedSyncIsApart(c: CloudState, wanted: View, after: CloudState)
    requires ValidCloud(c) && UniqueGroups(c) && ValidCloud(after) && UniqueGroups(after)
    requires GroupView(after) == GroupView(c) + wanted
    ensures Apart(wanted)
    ensures forall j, k :: j in wanted && k in GroupView(c) && k !in wanted ==> wanted[j] !! GroupView(c)[k]
  {
    CloudIsApart(c);
    CloudIsApart(after);
    hide GroupView, ValidCloud, UniqueGroups;
    forall j, k | j in wanted && k in wanted && j != k ensures wanted[j] !! wanted[k] {
      assert GroupView(after)[j] == wanted[j] && GroupView(after)[k] == wanted[k];
    }
    SyncedApartIff(GroupView(c), wanted);
  }

  /** What a group lacks is unclaimed exactly if all that is wanted for it is. */
  lemma LackingIsUnclaimed(c: CloudState, id: Id, wanted: seq<Target>, toAdd: seq<Target>)
    requires ValidCloud(c) && id in c.groups && Targets(toAdd) == Targets(wanted) - Targets(c.groups[id].targets)
    ensures Unclaimed(c, id, toAdd) <==> Unclaimed(c, id, wanted)
  {
    assert forall t :: t in toAdd <==> t in Targets(toAdd);
    assert forall t :: t in wanted <==> t in Targets(wanted);
    assert Unclaimed(c, id, c.groups[id].targets);
    hide ValidCloud;
    if Unclaimed(c, id, toAdd) {
      forall i, t | i in c.groups && i != id && t in wanted ensures t !in c.groups[i].targets {
        assert t in c.groups[id].targets || t in toAdd;
      }
    }
  }

  /** The cloud takes every request of a pass exactly if no other group holds a wanted target and, for a
      group to be created, no target is listed twice. */
  lemma GroupPlanAcceptedIff(c: CloudState, name: string, wanted: seq<Target>, plan: seq<Request>)
    requires ValidCloud(c) && UniqueGroups(c) && PlainSubnets(c) && IsGroupPlan(c, name, wanted, plan)
    requires forall t :: t in wanted ==> NoColon(t.subnetId)
    ensures AcceptsAll(c, plan) <==>
            (name !in GroupView(c) ==> Distinct(wanted)) && Claimable(GroupView(c), name, Targets(wanted))
  {
    if id :| id in GroupsNamed(c, name) {
      NamedIsView(c, id);
      var toAdd, toRemove := UpdatePlanIs(c, name, wanted, plan, id);
      UpdateAcceptable(c, id, wanted, toAdd, toRemove);
      OnlyInIsDifference(wanted, c.groups[id].targets, toAdd);
      LackingIsUnclaimed(c, id, wanted, toAdd);
      UnclaimedIsClaimable(c, id, name, wanted);
    } else {
      NextIdIsFree(c);
      FreshName(c, name);
      UnclaimedIsClaimable(c, c.nextId, name, wanted);
      var create := CreateGroup(TargetGroup(name, wanted));
      if Accepts(c, create) { PerformedOne(c, create, Perform(c, create)); }
      assert AcceptsAll(c, plan) ==> Accepts(c, create);
      assert name !in GroupNames(c);
    }
    hide GroupView;
  }

  /** Nothing of a pass takes effect while another group holds a wanted target. */
  lemma EffectNeedsClaim(c: CloudState, name: string, wanted: seq<Target>, plan: seq<Request>, k: nat,
                         after: CloudState)
    requires ValidCloud(c) && UniqueGroups(c) && PlainSubnets(c) && IsGroupPlan(c, name, wanted, plan)
    requires 0 < k <= |plan| && Performed(c, plan[..k], after) && forall t :: t in wanted ==> NoColon(t.subnetId)
    ensures Claimable(GroupView(c), name, Targets(wanted))
  {
    FirstIsTaken(c, plan, k, after);
    hide Performed, PlainSubnets, GroupView;
    if id :| id in GroupsNamed(c, name) {
      NamedIsView(c, id);
      var toAdd, toRemove := UpdatePlanIs(c, name, wanted, plan, id);
      assert toAdd != [] ==> plan[0] == AddTargets(id, toAdd);
      OnlyInIsDifference(wanted, c.groups[id].targets, toAdd);
      LackingIsUnclaimed(c, id, wanted, toAdd);
      UnclaimedIsClaimable(c, id, name, wanted);
    } else {
      NextIdIsFree(c);
      FreshName(c, name);
      UnclaimedIsClaimable(c, c.nextId, name, wanted);
    }
  }

  lemma FirstIsTaken(c: CloudState, plan: seq<Request>, k: nat, after: CloudState)
    requires 0 < k <= |plan| && Performed(c, plan[..k], after)
    ensures Accepts(c, plan[0])
  {
  }

  // The calls

  method GetTgByName(api: CloudApi, name: string) returns (r: Lookup)
    modifies api`faults
    ensures r.LookedUp? && r.id.Some? ==> GroupsNamed(api.state, name) == {r.id.value}
    ensures r.LookupNotFound? || (r.LookedUp? && r.id.None?) ==> GroupsNamed(api.state, name) == {}
    ensures api.faults >= old(api.faults)
    ensures api.faults == old(api.faults) ==> (r.LookedUp? <==> AtMostOne(GroupsNamed(api.state, name)))
  {
    var page := api.ListGroups(name);
    r := LookupOf(page);
  }

  /** What a pass over one group guarantees when it returns r after k requests of its plan; quiet says
      that the environment made no call fail. */
  ghost predicate GroupPassResult(c: CloudState, name: string, wanted: seq<Target>, plan: seq<Request>, k: nat,
                                  after: CloudState, r: Option<Id>, quiet: bool)
  {
    && IsGroupPlan(c, name, wanted, plan) && k <= |plan| && Performed(c, plan[..k], after)
    && (r.Some? ==> k == |plan| && r.value in GroupsNamed(after, name))
    && (quiet && AcceptsAll(c, plan) ==> r.Some?)
  }

  method CreateTG(api: CloudApi, g: TargetGroup) returns (r: Option<Id>, ghost plan: seq<Request>, ghost k: nat)
    requires api.Valid() && GroupsNamed(api.state, g.name) == {}
    modifies api
    ensures api.Valid() && api.faults >= old(api.faults)
    ensures GroupPassResult(old(api.state), g.name, g.targets, plan, k, api.state, r, api.faults == old(api.faults))
  {
    ghost var c := api.state;
    plan := [CreateGroup(g)];
    assert plan[..0] == [] && plan[..1] == plan;
    var reply;
    reply, k := Send(api, CreateGroup(g), c, plan, 0);
    if k == 1 { PerformedOne(c, CreateGroup(g), api.state); }
    if Accepts(c, CreateGroup(g)) { PerformedOne(c, CreateGroup(g), Perform(c, CreateGroup(g))); }
    if !reply.Done? {
      return None, plan, k;
    }
    r := Some(reply.id);
  }

  method UpdateTG(api: CloudApi, id: Id, name: string, targets: seq<Target>)
    returns (r: Option<Id>, ghost plan: seq<Request>, ghost k: nat)
    requires api.Valid() && GroupsNamed(api.state, name) == {id}
    modifies api
    ensures api.Valid() && api.faults >= old(api.faults)
    ensures GroupPassResult(old(api.state), name, targets, plan, k, api.state, r, api.faults == old(api.faults))
  {
    ghost var c := api.state;
    var targetsToAdd, targetsToRemove := DiffTargetGroupTargets(targets, api.state.groups[id].targets);
    plan := UpdateRequests(id, targetsToAdd, targetsToRemove);
    assert IsGroupPlan(c, name, targets, plan);
    var sent;
    sent, k := SendUpdate(api, id, targetsToAdd, targetsToRemove, c);
    if !sent {
      return None, plan, k;
    }
    assert plan[..k] == plan;
    NothingWantedIsDropped(c, name, targets, plan, id, k, api.state);
    hide IsGroupPlan, OnlyIn;
    assert GroupsNamed(api.state, name) == {id};
    r := Some(id);
    if |targetsToAdd| > 0 || |targetsToRemove| > 0 {
      var found := GetTgByName(api, name);
      r := if found.LookedUp? then found.id else None;
    }
  }

  /** Add, then remove, as far as the calls get through. */
  method SendUpdate(api: CloudApi, id: Id, toAdd: seq<Target>, toRemove: seq<Target>, ghost c: CloudState)
    returns (ok: bool, ghost k: nat)
    requires api.Valid() && api.state == c
    modifies api
    ensures api.Valid() && api.faults >= old(api.faults)
    ensures var plan := UpdateRequests(id, toAdd, toRemove);
            && k <= |plan| && Performed(c, plan[..k], api.state) && (ok ==> k == |plan|)
            && (api.faults == old(api.faults) && AcceptsAll(c, plan) ==> ok)
  {
    ghost var plan := UpdateRequests(id, toAdd, toRemove);
    k, ok := 0, false;
    assert plan[..0] == [];
    hide Accepts, Perform;
    var reply;
    if |toAdd| > 0 {
      reply, k := Send(api, AddTargets(id, toAdd), c, plan, k);
      if !reply.Done? {
        return;
      }
    }
    if |toRemove| > 0 {
      reply, k := Send(api, RemoveTargets(id, toRemove), c, plan, k);
      if !reply.Done? {
        return;
      }
    }
    ok := true;
  }

  /** A pass carries out some prefix of its plan, all of it if it reports an id. */
  method CreateOrUpdateTG(api: CloudApi, tgName: string, targets: seq<Target>)
    returns (r: Option<Id>, ghost plan: seq<Request>, ghost k: nat)
    requires api.Valid()
    modifies api
    ensures api.Valid() && api.faults >= old(api.faults)
    ensures if AtMostOne(GroupsNamed(old(api.state), tgName)) then
              GroupPassResult(old(api.state), tgName, targets, plan, k, api.state, r, api.faults == old(api.faults))
            else r.None? && api.state == old(api.state)
  {
    var found := GetTgByName(api, tgName);
    match found
    case LookupFailed =>
      r, plan, k := None, [], 0;
      if AtMostOne(GroupsNamed(api.state, tgName)) {
        plan := SomePlan(api.state, tgName, targets);
      }
      assert plan[..0] == [];
    case LookupNotFound =>
      r, plan, k := CreateTG(api, TargetGroup(tgName, targets));
    case LookedUp(id) =>
      if id.None? {
        r, plan, k := CreateTG(api, TargetGroup(tgName, targets));
      } else {
        r, plan, k := UpdateTG(api, id.value, tgName, targets);
      }
  }

  lemma OnlyInExists(xs: seq<Target>, ys: seq<Target>) returns (only: seq<Target>)
    ensures OnlyIn(xs, ys, only)
  {
    only := [];
    if xs != [] {
      var front, last := xs[..|xs| - 1], xs[|xs| - 1];
      assert xs == front + [last];
      UidsAppend(front, last);
      only := OnlyInExists(front, ys);
      if Uid(last) !in Uids(ys) && Uid(last) !in Uids(only) {
        UidsAppend(only, last);
        assert forall t :: t in only ==> Uid(t) in Uids(only);
        only := only + [last];
      }
    }
  }

  /** Every cloud with at most one group of a name allows a plan for it. */
  lemma SomePlan(c: CloudState, name: string, wanted: seq<Target>) returns (plan: seq<Request>)
    requires AtMostOne(GroupsNamed(c, name))
    ensures IsGroupPlan(c, name, wanted, plan)
  {
    if id :| id in GroupsNamed(c, name) {
      var toAdd := OnlyInExists(wanted, c.groups[id].targets);
      var toRemove := OnlyInExists(c.groups[id].targets, wanted);
      plan := UpdateRequests(id, toAdd, toRemove);
      assert GroupsNamed(c, name) == {id};
    } else {
      plan := [CreateGroup(TargetGroup(name, wanted))];
    }
  }

  /** The groups on the first page whose name contains the cluster name. */
  method GetTGsByClusterName(api: CloudApi, clusterName: string) returns (r: Option<seq<Id>>)
    modifies api`faults
    ensures api.faults >= old(api.faults) && (api.faults == old(api.faults) ==> r.Some?)
    ensures r.Some? ==>
      && Distinct(r.value)
      && (forall id :: id in r.value ==> id in api.state.groups && Contains(api.state.groups[id].name, clusterName))
      && (|api.state.groups.Keys| <= 1000 ==>
            forall id :: id in api.state.groups && Contains(api.state.groups[id].name, clusterName) ==> id in r.value)
  {
    var page := api.ListAllGroups();
    if !page.Listed? {
      return None;
    }
    var all := page.items;
    var ret: seq<Id> := [];
    for i := 0 to |all|
      invariant Distinct(ret)
      invariant forall id :: id in ret <==> id in all[..i] && Contains(api.state.groups[id].name, clusterName)
    {
      assert all[..i + 1] == all[..i] + [all[i]];
      assert all[i] !in all[..i];
      if Contains(api.state.groups[all[i]].name, clusterName) {
        ret := ret + [all[i]];
      }
    }
    assert all[..|all|] == all;
    r := Some(ret);
  }

  method RemoveTGByID(api: CloudApi, tgId: Id) returns (ok: bool, ghost done: seq<Request>)
    requires api.Valid()
    modifies api
    ensures api.Valid() && api.faults >= old(api.faults)
    ensures Performed(old(api.state), done, api.state) && (done == [] || done == [DeleteGroup(tgId)])
    ensures ok ==> tgId !in api.state.groups
    ensures api.faults == old(api.faults) ==> ok
  {
    ghost var c := api.state;
    var reply;
    reply, done := api.Call(DeleteGroup(tgId));
    if done != [] { PerformedOne(c, DeleteGroup(tgId), api.state); }
    ok := !reply.Failed?;
  }
}
