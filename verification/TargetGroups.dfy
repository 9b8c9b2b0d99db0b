/** Reconciling one target group with the targets wanted for it (pkg/yapi/loadbalancer.go:189-206, 238-336, 359-411). */
module TargetGroups {
  import opened Seqs
  import opened Cloud

  /** The text by which the comparison identifies a target. */
  function Uid(t: Target): string { t.subnetId + ":" + t.address }

  function Uids(ts: seq<Target>): set<string> { set t | t in ts :: Uid(t) }

  ghost function Targets(ts: seq<Target>): set<Target> { set t | t in ts }

  predicate NoColon(s: string) { ':' !in s }

  ghost function UpToColon(s: string): string {
    if s == "" || s[0] == ':' then "" else [s[0]] + UpToColon(s[1..])
  }

  lemma {:induction false} UpToColonIs(s: string, rest: string)
    requires NoColon(s)
    ensures UpToColon(s + ":" + rest) == s
  {
    if s != "" {
      assert s[0] in s;
      assert (s + ":" + rest)[1..] == s[1..] + ":" + rest;
      UpToColonIs(s[1..], rest);
    }
  }

  /** Subnet ids without a colon make the text unambiguous. */
  lemma UidInjective(t: Target, u: Target)
    requires NoColon(t.subnetId) && NoColon(u.subnetId) && Uid(t) == Uid(u)
    ensures t == u
  {
    UpToColonIs(t.subnetId, t.address);
    UpToColonIs(u.subnetId, u.address);
    var n := |t.subnetId|;
    assert Uid(t)[n + 1..] == t.address && Uid(u)[n + 1..] == u.address;
  }

  /** Colons in subnet ids can make two targets look the same. */
  lemma ColonsCollide()
    ensures exists t, u :: t != u && Uid(t) == Uid(u)
  {
    var t, u := Target("a:b", "c"), Target("a", "b:c");
    assert Uid(t) == "a:b:c" == Uid(u);
    assert t != u;
  }

  /** One representative of each text that only xs has. */
  ghost predicate OnlyIn(xs: seq<Target>, ys: seq<Target>, only: seq<Target>) {
    && DistinctBy(only, Uid)
    && (forall t :: t in only ==> t in xs && Uid(t) !in Uids(ys))
    && (forall t :: t in xs && Uid(t) !in Uids(ys) ==> Uid(t) in Uids(only))
  }

  /** One half of the comparison; the order in which the texts are gone through does not matter. */
  method Difference(xs: seq<Target>, ys: seq<Target>) returns (only: seq<Target>)
    ensures OnlyIn(xs, ys, only)
  {
    var byUid: map<string, Target> := map[];
    for i := 0 to |xs|
      invariant byUid.Keys == Uids(xs[..i])
      invariant forall u :: u in byUid ==> byUid[u] in xs && Uid(byUid[u]) == u
    {
      byUid := byUid[Uid(xs[i]) := xs[i]];
      assert xs[..i + 1] == xs[..i] + [xs[i]];
    }
    assert xs[..|xs|] == xs;
    only := [];
    var rest := byUid.Keys - Uids(ys);
    hide Uids, Uid;
    while rest != {}
      invariant rest <= byUid.Keys && SoFar(xs, ys, only, rest)
    {
      var u :| u in rest;
      OneMore(xs, ys, only, rest, byUid[u]);
      rest := rest - {u};
      only := only + [byUid[u]];
    }
  }

  /** The texts of rest are the ones still to be represented. */
  ghost predicate SoFar(xs: seq<Target>, ys: seq<Target>, only: seq<Target>, rest: set<string>) {
    && DistinctBy(only, Uid)
    && (forall t :: t in only ==> t in xs && Uid(t) !in Uids(ys) && Uid(t) !in rest)
    && (forall t :: t in xs && Uid(t) !in Uids(ys) ==> Uid(t) in Uids(only) || Uid(t) in rest)
  }

  lemma OneMore(xs: seq<Target>, ys: seq<Target>, only: seq<Target>, rest: set<string>, t: Target)
    requires SoFar(xs, ys, only, rest) && t in xs && Uid(t) in rest && Uid(t) !in Uids(ys)
    ensures SoFar(xs, ys, only + [t], rest - {Uid(t)})
  {
    hide Uids, Uid;
    UidsAppend(only, t);
    var next := only + [t];
    assert forall i :: 0 <= i < |only| ==> next[i] == only[i] && next[i] in only;
  }

  lemma UidsAppend(ts: seq<Target>, t: Target)
    ensures Uids(ts + [t]) == Uids(ts) + {Uid(t)}
  {
    assert t in ts + [t];
    forall u | u in Uids(ts) ensures u in Uids(ts + [t]) {
      var x :| x in ts && Uid(x) == u;
      assert x in ts + [t];
    }
  }

  method DiffTargetGroupTargets(expected: seq<Target>, actual: seq<Target>)
    returns (targetsToAdd: seq<Target>, targetsToRemove: seq<Target>)
    ensures OnlyIn(expected, actual, targetsToAdd) && OnlyIn(actual, expected, targetsToRemove)
  {
    targetsToAdd := Difference(expected, actual);
    targetsToRemove := Difference(actual, expected);
  }

  /** Without colons the comparison is the difference of the two sets. */
  lemma OnlyInIsDifference(xs: seq<Target>, ys: seq<Target>, only: seq<Target>)
    requires OnlyIn(xs, ys, only)
    requires forall t :: t in xs || t in ys ==> NoColon(t.subnetId)
    ensures Targets(only) == Targets(xs) - Targets(ys)
  {
    forall t | t in xs ensures t in only <==> t !in ys {
      if t in ys {
        assert Uid(t) in Uids(ys);
      } else if Uid(t) in Uids(ys) {
        var u :| u in ys && Uid(u) == Uid(t);
        UidInjective(t, u);
      } else {
        var u :| u in only && Uid(u) == Uid(t);
        UidInjective(t, u);
      }
    }
  }

  /** Add first, then remove; nothing is sent for an empty list. */
  function UpdateRequests(id: Id, toAdd: seq<Target>, toRemove: seq<Target>): seq<Request> {
    (if |toAdd| > 0 then [AddTargets(id, toAdd)] else []) +
    (if |toRemove| > 0 then [RemoveTargets(id, toRemove)] else [])
  }

  /** The requests of a pass that finds cloud c and is not cut short. */
  ghost predicate IsGroupPlan(c: CloudState, name: string, wanted: seq<Target>, plan: seq<Request>) {
    if GroupsNamed(c, name) == {} then plan == [CreateGroup(TargetGroup(name, wanted))]
    else
      exists id, toAdd, toRemove :: GroupsNamed(c, name) == {id} && plan == UpdateRequests(id, toAdd, toRemove)
        && OnlyIn(wanted, c.groups[id].targets, toAdd) && OnlyIn(c.groups[id].targets, wanted, toRemove)
  }

  lemma UpdatePlanIs(c: CloudState, name: string, wanted: seq<Target>, plan: seq<Request>, id: Id)
    returns (toAdd: seq<Target>, toRemove: seq<Target>)
    requires GroupsNamed(c, name) == {id} && IsGroupPlan(c, name, wanted, plan)
    ensures plan == UpdateRequests(id, toAdd, toRemove)
    ensures OnlyIn(wanted, c.groups[id].targets, toAdd) && OnlyIn(c.groups[id].targets, wanted, toRemove)
  {
    var i, a, r :| GroupsNamed(c, name) == {i} && plan == UpdateRequests(i, a, r)
        && OnlyIn(wanted, c.groups[i].targets, a) && OnlyIn(c.groups[i].targets, wanted, r);
    assert i in {id};
    toAdd, toRemove := a, r;
  }

  /** The group with target list ts after the first k requests of an update. */
  ghost function PartlyUpdated(ts: seq<Target>, toAdd: seq<Target>, toRemove: seq<Target>, k: nat): seq<Target> {
    var added := if toAdd != [] && k == 0 then ts else ts + toAdd;
    if toRemove == [] || k < (if toAdd != [] then 2 else 1) then added else Filter(added, t => t !in toRemove)
  }

  lemma UpdateEffect(c: CloudState, id: Id, toAdd: seq<Target>, toRemove: seq<Target>, k: nat, after: CloudState)
    requires id in c.groups && k <= |UpdateRequests(id, toAdd, toRemove)|
    requires Performed(c, UpdateRequests(id, toAdd, toRemove)[..k], after)
    ensures after == SetGroup(c, id, c.groups[id].(targets := PartlyUpdated(c.groups[id].targets, toAdd, toRemove, k)))
  {
    var ts := c.groups[id].targets;
    var rs := UpdateRequests(id, toAdd, toRemove)[..k];
    assert ts + [] == ts;
    if k == 0 {
      assert c == SetGroup(c, id, c.groups[id].(targets := ts));
    } else if toAdd == [] {
      assert rs == [RemoveTargets(id, toRemove)];
      PerformedOne(c, rs[0], after);
    } else if k == 1 {
      assert rs == [AddTargets(id, toAdd)];
      PerformedOne(c, rs[0], after);
    } else {
      assert rs == [AddTargets(id, toAdd), RemoveTargets(id, toRemove)];
      PerformedTwo(c, rs[0], rs[1], after);
      PerformedOne(Perform(c, rs[0]), rs[1], after);
    }
  }

  lemma AdditionsAreNew(ts: seq<Target>, wanted: seq<Target>, toAdd: seq<Target>)
    requires Distinct(ts) && OnlyIn(wanted, ts, toAdd)
    ensures Distinct(ts + toAdd)
  {
    forall i, j | 0 <= i < j < |ts + toAdd| ensures (ts + toAdd)[i] != (ts + toAdd)[j] {
      if i < |ts| <= j {
        assert Uid(ts[i]) in Uids(ts) && toAdd[j - |ts|] in toAdd;
      } else if |ts| <= i {
        assert Uid(toAdd[i - |ts|]) != Uid(toAdd[j - |ts|]);
      }
    }
  }

  /** The cloud takes an update exactly if no other group holds a target that is to be added. */
  lemma UpdateAcceptable(c: CloudState, id: Id, wanted: seq<Target>, toAdd: seq<Target>, toRemove: seq<Target>)
    requires id in c.groups && Distinct(c.groups[id].targets)
    requires OnlyIn(wanted, c.groups[id].targets, toAdd) && OnlyIn(c.groups[id].targets, wanted, toRemove)
    ensures AcceptsAll(c, UpdateRequests(id, toAdd, toRemove)) <==> Unclaimed(c, id, toAdd)
  {
    var ts := c.groups[id].targets;
    AdditionsAreNew(ts, wanted, toAdd);
    assert forall t :: t in toRemove ==> t in ts;
    hide OnlyIn, Distinct, Filter;
    var add, remove := AddTargets(id, toAdd), RemoveTargets(id, toRemove);
    if toAdd == [] && toRemove == [] {
      assert UpdateRequests(id, toAdd, toRemove) == [];
    } else if toAdd == [] {
      assert UpdateRequests(id, toAdd, toRemove) == [remove];
      PerformedOne(c, remove, Perform(c, remove));
    } else {
      assert Accepts(c, add) <==> Unclaimed(c, id, toAdd);
      assert UpdateRequests(id, toAdd, toRemove)[0] == add;
      if Accepts(c, add) {
        AdditionThenRemoval(c, id, toAdd, toRemove);
      }
    }
  }

  lemma AdditionThenRemoval(c: CloudState, id: Id, toAdd: seq<Target>, toRemove: seq<Target>)
    requires toAdd != [] && Accepts(c, AddTargets(id, toAdd)) && forall t :: t in toRemove ==> t in c.groups[id].targets
    ensures AcceptsAll(c, UpdateRequests(id, toAdd, toRemove))
  {
    hide Distinct, Unclaimed, Filter;
    var add, remove := AddTargets(id, toAdd), RemoveTargets(id, toRemove);
    var next := Perform(c, add);
    if toRemove == [] {
      assert UpdateRequests(id, toAdd, toRemove) == [add];
      PerformedOne(c, add, next);
    } else {
      assert UpdateRequests(id, toAdd, toRemove) == [add, remove];
      PerformedOne(next, remove, Perform(next, remove));
      PerformedTwo(c, add, remove, Perform(next, remove));
    }
  }

  /** At every point of an update each target that is both present and wanted stays, and nothing
      appears that was neither present nor wanted. */
  lemma NothingWantedIsDropped(c: CloudState, name: string, wanted: seq<Target>, plan: seq<Request>, id: Id, k: nat,
                               after: CloudState)
    requires GroupsNamed(c, name) == {id} && IsGroupPlan(c, name, wanted, plan)
    requires k <= |plan| && Performed(c, plan[..k], after)
    ensures id in after.groups && after == SetGroup(c, id, after.groups[id]) && after.groups[id].name == name
    ensures forall t :: t in c.groups[id].targets && Uid(t) in Uids(wanted) ==> t in after.groups[id].targets
    ensures forall t :: t in after.groups[id].targets ==> t in c.groups[id].targets || t in wanted
  {
    var toAdd, toRemove := UpdatePlanIs(c, name, wanted, plan, id);
    UpdateEffect(c, id, toAdd, toRemove, k, after);
    var added := c.groups[id].targets + toAdd;
    forall t ensures t in Filter(added, t => t !in toRemove) <==> t in added && t !in toRemove {
      FilterMembers(added, t => t !in toRemove, t);
    }
  }

  lemma PartlyUpdatedMembers(ts: seq<Target>, toAdd: seq<Target>, toRemove: seq<Target>, k: nat, t: Target)
    ensures t in PartlyUpdated(ts, toAdd, toRemove, k) <==>
              && (t in ts || (t in toAdd && k > 0))
              && (toRemove == [] || k < (if toAdd != [] then 2 else 1) || t !in toRemove)
  {
    FilterMembers(ts + toAdd, t => t !in toRemove, t);
    FilterMembers(ts, t => t !in toRemove, t);
  }

  /** No two targets in play are told apart by their content but not by their text. */
  ghost predicate Unambiguous(wanted: seq<Target>, present: seq<Target>) {
    && (forall p, w :: p in present && w in wanted && Uid(p) == Uid(w) ==> p in wanted && w in present)
    && (forall v, w :: v in wanted && w in wanted && Uid(v) == Uid(w) && Uid(v) !in Uids(present) ==> v == w)
    && (forall p, q :: p in present && q in present && Uid(p) == Uid(q) && Uid(p) !in Uids(wanted) ==> p == q)
  }

  lemma NoColonIsUnambiguous(wanted: seq<Target>, present: seq<Target>)
    requires forall t :: t in wanted || t in present ==> NoColon(t.subnetId)
    ensures Unambiguous(wanted, present)
  {
    forall t, u | (t in wanted || t in present) && (u in wanted || u in present) && Uid(t) == Uid(u) ensures t == u {
      UidInjective(t, u);
    }
  }

  /** An update that completes leaves exactly the wanted targets if and only if no texts collide. */
  lemma UpdateExactIffUnambiguous(c: CloudState, name: string, wanted: seq<Target>, plan: seq<Request>, id: Id,
                                  after: CloudState)
    requires GroupsNamed(c, name) == {id} && IsGroupPlan(c, name, wanted, plan) && Performed(c, plan, after)
    ensures id in after.groups
    ensures Targets(after.groups[id].targets) == Targets(wanted) <==> Unambiguous(wanted, c.groups[id].targets)
  {
    var ts := c.groups[id].targets;
    var toAdd, toRemove := UpdatePlanIs(c, name, wanted, plan, id);
    assert plan[..|plan|] == plan;
    UpdateEffect(c, id, toAdd, toRemove, |plan|, after);
    var now := after.groups[id].targets;
    assert (forall t :: t in ts ==> Uid(t) in Uids(ts)) && (forall t :: t in wanted ==> Uid(t) in Uids(wanted));
    forall t ensures t in now <==> (t in ts || t in toAdd) && t !in toRemove {
      PartlyUpdatedMembers(ts, toAdd, toRemove, |plan|, t);
    }
    if Unambiguous(wanted, ts) {
      ExactForward(wanted, ts, toAdd, toRemove, now);
    }
    if Targets(now) == Targets(wanted) {
      ExactBackward(wanted, ts, toAdd, toRemove, now);
    }
  }

  lemma ExactForward(wanted: seq<Target>, ts: seq<Target>, toAdd: seq<Target>, toRemove: seq<Target>, now: seq<Target>)
    requires OnlyIn(wanted, ts, toAdd) && OnlyIn(ts, wanted, toRemove) && Unambiguous(wanted, ts)
    requires forall t :: t in now <==> (t in ts || t in toAdd) && t !in toRemove
    ensures Targets(now) == Targets(wanted)
  {
    assert (forall t :: t in ts ==> Uid(t) in Uids(ts)) && (forall t :: t in wanted ==> Uid(t) in Uids(wanted));
    forall t | t in wanted ensures t in now {
      WantedIsKeptOrAdded(wanted, ts, toAdd, toRemove, t);
    }
    forall t | t in ts && Uid(t) !in Uids(wanted) ensures t in toRemove {
      var r :| r in toRemove && Uid(r) == Uid(t);
    }
    forall t | t in now && Uid(t) in Uids(wanted) ensures t in wanted {
      var w :| w in wanted && Uid(w) == Uid(t);
    }
  }

  lemma ExactBackward(wanted: seq<Target>, ts: seq<Target>, toAdd: seq<Target>, toRemove: seq<Target>, now: seq<Target>)
    requires OnlyIn(wanted, ts, toAdd) && OnlyIn(ts, wanted, toRemove) && Targets(now) == Targets(wanted)
    requires forall t :: t in now <==> (t in ts || t in toAdd) && t !in toRemove
    ensures Unambiguous(wanted, ts)
  {
    assert (forall t :: t in ts ==> Uid(t) in Uids(ts)) && (forall t :: t in wanted ==> Uid(t) in Uids(wanted));
    assert forall t :: t in now <==> t in Targets(now);
    assert forall t :: t in wanted <==> t in Targets(wanted);
    SameUidSame(toAdd);
    SameUidSame(toRemove);
  }

  lemma SameUidSame(ts: seq<Target>)
    requires DistinctBy(ts, Uid)
    ensures forall t, u :: t in ts && u in ts && Uid(t) == Uid(u) ==> t == u
  {
  }

  /** When all that is left of an update is a removal, every wanted target is already there. */
  lemma AddedBeforeRemoved(c: CloudState, name: string, wanted: seq<Target>, plan: seq<Request>, id: Id, k: nat,
                           after: CloudState)
    requires GroupsNamed(c, name) == {id} && IsGroupPlan(c, name, wanted, plan)
    requires k <= |plan| && Performed(c, plan[..k], after) && (k < |plan| ==> plan[k].RemoveTargets?)
    ensures id in after.groups
    ensures Unambiguous(wanted, c.groups[id].targets) ==> Targets(wanted) <= Targets(after.groups[id].targets)
  {
    var ts := c.groups[id].targets;
    var toAdd, toRemove := UpdatePlanIs(c, name, wanted, plan, id);
    UpdateEffect(c, id, toAdd, toRemove, k, after);
    assert toAdd != [] ==> plan[0] == AddTargets(id, toAdd);
    if Unambiguous(wanted, ts) {
      forall t | t in wanted ensures t in after.groups[id].targets {
        PartlyUpdatedMembers(ts, toAdd, toRemove, k, t);
        WantedIsKeptOrAdded(wanted, ts, toAdd, toRemove, t);
      }
    }
  }

  lemma WantedIsKeptOrAdded(wanted: seq<Target>, ts: seq<Target>, toAdd: seq<Target>, toRemove: seq<Target>, t: Target)
    requires OnlyIn(wanted, ts, toAdd) && OnlyIn(ts, wanted, toRemove) && Unambiguous(wanted, ts) && t in wanted
    ensures (t in ts || t in toAdd) && t !in toRemove
  {
    assert Uid(t) in Uids(wanted);
    if Uid(t) in Uids(ts) {
      var p :| p in ts && Uid(p) == Uid(t);
    } else {
      var a :| a in toAdd && Uid(a) == Uid(t);
    }
  }

  /** A group that already has exactly the wanted targets gets no request. */
  lemma NothingToUpdate(c: CloudState, name: string, wanted: seq<Target>, plan: seq<Request>, id: Id)
    requires GroupsNamed(c, name) == {id} && IsGroupPlan(c, name, wanted, plan)
    requires Targets(c.groups[id].targets) == Targets(wanted)
    ensures plan == []
  {
    var ts := c.groups[id].targets;
    var toAdd, toRemove := UpdatePlanIs(c, name, wanted, plan, id);
    assert forall t :: t in ts <==> t in Targets(ts);
    assert forall t :: t in wanted <==> t in Targets(wanted);
    assert (forall t :: t in ts ==> Uid(t) in Uids(ts)) && (forall t :: t in wanted ==> Uid(t) in Uids(wanted));
    NoMembers(toAdd);
    NoMembers(toRemove);
  }
}
