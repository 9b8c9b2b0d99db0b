/** Reconciling one network load balancer with what a service asks for (pkg/yapi/loadbalancer.go). */
module LoadBalancer {
  import opened Seqs
  import opened KeyedDiff
  import opened Cloud
  import opened BalancerPlan

  predicate ListenersAreEqual(actual: Listener, expected: Listener)
    ensures ListenersAreEqual(actual, expected) <==>
            actual.protocol == expected.protocol && actual.port == expected.port
            && actual.targetPort == expected.targetPort
  {
    if actual.protocol != expected.protocol then false
    else if actual.port != expected.port then false
    else if actual.targetPort != expected.targetPort then false
    else true
  }

  /** An attachment whose expected health check is not an HTTP one never counts as there. */
  predicate AttachedGroupsAreEqual(actual: AttachedGroup, expected: AttachedGroup)
    requires Comparable(actual, expected)
    ensures AttachedGroupsAreEqual(actual, expected) <==>
            && actual.groupId == expected.groupId
            && actual.healthChecks != [] && actual.healthChecks[0].options.HttpOptions?
            && expected.healthChecks != [] && expected.healthChecks[0].options.HttpOptions?
            &&
               var x, y := actual.healthChecks[0], expected.healthChecks[0];
               && x.name == y.name && x.options.port == y.options.port && x.options.path == y.options.path
               && x.unhealthyThreshold == y.unhealthyThreshold && x.healthyThreshold == y.healthyThreshold
               && x.interval.seconds == y.interval.seconds && x.timeout.seconds == y.timeout.seconds
  {
    if actual.groupId != expected.groupId then false
    else if |actual.healthChecks| == 0 then false
    else
      var a, e := actual.healthChecks[0], expected.healthChecks[0];
      if a.name != e.name then false
      else if a.unhealthyThreshold != e.unhealthyThreshold then false
      else if a.healthyThreshold != e.healthyThreshold then false
      else if !a.options.HttpOptions? then false
      else if a.options.port != e.options.port then false
      else if a.options.path != e.options.path then false
      else if a.interval.seconds != e.interval.seconds then false
      else if a.timeout.seconds != e.timeout.seconds then false
      else true
  }

  method DiffListeners(expected: seq<Listener>, actual: seq<Listener>)
    returns (toAdd: seq<Listener>, toRemove: seq<Listener>)
    ensures toRemove == Unwanted(actual, expected, EndpointOf)
    ensures toAdd == Missing(actual, expected, NameOf, EndpointOf)
    ensures forall x :: x in toRemove <==> x in actual && !HasListener(expected, x)
    ensures DistinctBy(expected, NameOf) && DistinctBy(expected, SlotOf) ==>
              forall e :: e in toAdd <==> e in expected && !HasListener(actual, e)
  {
    var foundSet: set<string> := {};
    toAdd, toRemove := [], [];
    for i := 0 to |actual|
      invariant toRemove == Unwanted(actual[..i], expected, EndpointOf)
      invariant foundSet == Found(actual[..i], expected, NameOf, EndpointOf)
    {
      var found := false;
      ghost var m := FirstMatch(actual[i], expected, EndpointOf);
      for j := 0 to |expected|
        invariant !found && foundSet == Found(actual[..i], expected, NameOf, EndpointOf)
        invariant forall k :: 0 <= k < j ==> EndpointOf(expected[k]) != EndpointOf(actual[i])
      {
        if ListenersAreEqual(actual[i], expected[j]) {
          FirstMatchAt(actual[i], expected, EndpointOf, j);
          foundSet := foundSet + {expected[j].name};
          found := true;
          break;
        }
      }
      assert found <==> m.Some?;
      if !found {
        toRemove := toRemove + [actual[i]];
      }
      UnwantedNext(actual, i, expected, NameOf, EndpointOf);
    }
    assert actual[..|actual|] == actual;
    for i := 0 to |expected|
      invariant toAdd == NotNamed(expected[..i], foundSet, NameOf)
    {
      if expected[i].name !in foundSet {
        toAdd := toAdd + [expected[i]];
      }
      NotNamedNext(expected, i, foundSet, NameOf);
    }
    assert expected[..|expected|] == expected;
    ListenerDiff(actual, expected);
  }

  lemma EqualIsSame(actual: AttachedGroup, expected: AttachedGroup)
    requires Comparable(actual, expected)
    ensures AttachedGroupsAreEqual(actual, expected) <==> SameAttachment(actual, expected)
  {
    AttachmentsAgreeIff(expected, actual);
  }

  /** A comparison that is reached does not crash. */
  lemma ReachedIsComparable(actual: seq<AttachedGroup>, expected: seq<AttachedGroup>, i: nat, j: nat)
    requires AllComparable(actual, expected) && i < |actual| && j < |expected|
    requires forall k :: 0 <= k < j ==> !SameAttachment(actual[i], expected[k])
    ensures Comparable(actual[i], expected[j])
  {
    hide Comparable, SameAttachment;
  }

  /** The loop stops at the first match among the expected attachments with an HTTP check. */
  lemma MatchedIsFirst(x: AttachedGroup, expected: seq<AttachedGroup>, j: nat)
    requires j <= |expected| && forall k :: 0 <= k < j ==> !SameAttachment(x, expected[k])
    ensures var m := FirstMatch(x, Checked(expected), AttachmentKeyOf);
            && (j < |expected| && SameAttachment(x, expected[j]) ==> m == Some(expected[j]))
            && (j == |expected| ==> m == None)
  {
    hide AttachmentKeyOf, HasHttpCheck;
    if j == |expected| {
      NoMatchAmong(x, expected, HasHttpCheck, AttachmentKeyOf);
    } else if SameAttachment(x, expected[j]) {
      FirstMatchAmong(x, expected, HasHttpCheck, AttachmentKeyOf, j);
    }
  }

  method DiffAttachedGroups(expected: seq<AttachedGroup>, actual: seq<AttachedGroup>)
    returns (toAttach: seq<AttachedGroup>, toDetach: seq<AttachedGroup>)
    requires AllComparable(actual, expected)
    ensures toDetach == Unwanted(actual, Checked(expected), AttachmentKeyOf)
    ensures toAttach == NotNamed(expected, Found(actual, Checked(expected), GroupIdOf, AttachmentKeyOf), GroupIdOf)
    ensures forall x :: x in toDetach <==> x in actual && !HasChecked(expected, x)
    ensures DistinctBy(expected, GroupIdOf) ==>
              forall e :: e in toAttach <==> e in expected && !HasChecked(actual, e)
  {
    hide AllComparable, Comparable, AttachedGroupsAreEqual, AttachmentKeyOf, SameAttachment, Checked;
    var foundSet: set<Id> := {};
    toAttach, toDetach := [], [];
    for i := 0 to |actual|
      invariant toDetach == Unwanted(actual[..i], Checked(expected), AttachmentKeyOf)
      invariant foundSet == Found(actual[..i], Checked(expected), GroupIdOf, AttachmentKeyOf)
    {
      var found := false;
      ghost var m := FirstMatch(actual[i], Checked(expected), AttachmentKeyOf);
      for j := 0 to |expected|
        invariant !found && foundSet == Found(actual[..i], Checked(expected), GroupIdOf, AttachmentKeyOf)
        invariant forall k :: 0 <= k < j ==> !SameAttachment(actual[i], expected[k])
      {
        ReachedIsComparable(actual, expected, i, j);
        EqualIsSame(actual[i], expected[j]);
        if AttachedGroupsAreEqual(actual[i], expected[j]) {
          MatchedIsFirst(actual[i], expected, j);
          foundSet := foundSet + {expected[j].groupId};
          found := true;
          break;
        }
      }
      if !found {
        MatchedIsFirst(actual[i], expected, |expected|);
        toDetach := toDetach + [actual[i]];
      }
      assert found <==> m.Some?;
      UnwantedNext(actual, i, Checked(expected), GroupIdOf, AttachmentKeyOf);
    }
    assert actual[..|actual|] == actual;
    for i := 0 to |expected|
      invariant toAttach == NotNamed(expected[..i], foundSet, GroupIdOf)
    {
      if expected[i].groupId !in foundSet {
        toAttach := toAttach + [expected[i]];
      }
      NotNamedNext(expected, i, foundSet, GroupIdOf);
    }
    assert expected[..|expected|] == expected;
    DetachedInFields(actual, expected);
    if DistinctBy(expected, GroupIdOf) { AttachedInFields(actual, expected); }
  }

  /** The balancer that a call asks for: internal as soon as one listener is. */
  ghost function Requested(name: string, specs: seq<Listener>, groups: seq<AttachedGroup>): Balancer {
    Balancer(name, if exists l :: l in specs && l.internal then Internal else External, specs, groups)
  }

  method KindFor(listenerSpec: seq<Listener>) returns (kind: BalancerKind)
    ensures kind == if exists l :: l in listenerSpec && l.internal then Internal else External
  {
    kind := External;
    for i := 0 to |listenerSpec|
      invariant kind == External && forall j :: 0 <= j < i ==> !listenerSpec[j].internal
    {
      if listenerSpec[i].internal {
        kind := Internal;
        break;
      }
    }
  }

  method GetLbByName(api: CloudApi, name: string) returns (r: Lookup)
    modifies api`faults
    ensures r.LookedUp? && r.id.Some? ==> BalancersNamed(api.state, name) == {r.id.value}
    ensures r.LookupNotFound? || (r.LookedUp? && r.id.None?) ==> BalancersNamed(api.state, name) == {}
    ensures api.faults >= old(api.faults)
    ensures api.faults == old(api.faults) ==> (r.LookedUp? <==> AtMostOne(BalancersNamed(api.state, name)))
  {
    var page := api.ListBalancers(name);
    r := LookupOf(page);
  }

  /** Whose address the caller gets back; asking an empty list for its first element is a crash. */
  datatype Outcome = AddressOf(listener: Listener) | NoListener | Error

  /** What a pass that got through k requests of its plan guarantees. */
  ghost predicate IsPass(c: CloudState, d: Balancer, k: nat, after: CloudState)
    requires AtMostOne(BalancersNamed(c, d.name))
  {
    k <= |Plan(c, d)| && Performed(c, Plan(c, d)[..k], after)
  }

  ghost predicate FirstAnswers(ls: seq<Listener>, r: Outcome) {
    if ls == [] then r.NoListener? else r == AddressOf(ls[0])
  }

  /** The answer of a pass that got through: the balancer is settled and its first listener is known. */
  ghost predicate IsAnswer(d: Balancer, after: CloudState, r: Outcome) {
    && Settled(after, d)
    && (exists id :: BalancersNamed(after, d.name) == {id} && FirstAnswers(after.balancers[id].listeners, r))
    && (r.NoListener? ==> d.listeners == [])
  }

  /** Passes that got as far as they got, followed by another one, are interrupted attempts. */
  lemma {:induction false} PassIsAttempt(c: CloudState, d: Balancer, ks: seq<nat>, k: nat, after: CloudState)
    requires Attempts(c, d, ks) && AtMostOne(BalancersNamed(AfterAttempts(c, d, ks), d.name))
    requires IsPass(AfterAttempts(c, d, ks), d, k, after)
    ensures Attempts(c, d, ks + [k]) && AfterAttempts(c, d, ks + [k]) == after
    decreases |ks|
  {
    hide Plan;
    if ks == [] {
      assert ks + [k] == [k] && [k][1..] == [];
      assert AfterAttempts(after, d, []) == after;
    } else {
      assert (ks + [k])[1..] == ks[1..] + [k];
      PassIsAttempt(PerformAll(c, Plan(c, d)[..ks[0]]), d, ks[1..], k, after);
    }
  }

  /** Everything a pass guarantees when it returns r after k requests of its plan; quiet says that
      the environment made no call fail. */
  ghost predicate PassResult(c: CloudState, d: Balancer, k: nat, after: CloudState, r: Outcome, quiet: bool)
    requires AtMostOne(BalancersNamed(c, d.name))
  {
    && IsPass(c, d, k, after)
    && (!r.Error? ==> k == |Plan(c, d)|)
    && (quiet && AcceptsAll(c, Plan(c, d)) ==> !r.Error?)
    && (ValidBalancer(d) && !r.Error? ==> IsAnswer(d, after, r))
  }

  /** The one balancer of the name is of the kind, and has the listeners and attachments, asked for, and the
      answer is its first listener. */
  ghost predicate Built(c: CloudState, name: string, specs: seq<Listener>, groups: seq<AttachedGroup>, r: Outcome) {
    exists id :: BalancersNamed(c, name) == {id} && IsBuilt(c.balancers[id], specs, groups, r)
  }

  ghost predicate IsBuilt(b: Balancer, specs: seq<Listener>, groups: seq<AttachedGroup>, r: Outcome) {
    && (b.kind.Internal? <==> exists l :: l in specs && l.internal)
    && Listening(b.listeners, specs) && Attaching(b.attached, groups)
    && (if b.listeners == [] then r.NoListener? else r == AddressOf(b.listeners[0]))
  }

  lemma AnswerIsBuilt(c: CloudState, d: Balancer, k: nat, after: CloudState, r: Outcome, quiet: bool)
    requires AtMostOne(BalancersNamed(c, d.name)) && PassResult(c, d, k, after, r, quiet) && ValidCloud(after)
    requires d == Requested(d.name, d.listeners, d.attached)
    ensures ValidBalancer(d) && !r.Error? ==> Built(after, d.name, d.listeners, d.attached, r)
  {
    hide Plan, Settled, Listening, Attaching, Performed;
    if ValidBalancer(d) && !r.Error? {
      var id := SettledInFields(after, d);
      assert IsBuilt(after.balancers[id], d.listeners, d.attached, r);
    }
  }

  /** The creating step, which ends a pass whether or not it had to delete first. */
  method CreateLB(api: CloudApi, d: Balancer, ghost c: CloudState, ghost k: nat) returns (r: Outcome, ghost k': nat)
    requires api.Valid() && ValidCloud(c) && AtMostOne(BalancersNamed(c, d.name)) && IsPass(c, d, k, api.state)
    requires k + 1 == |Plan(c, d)| && Plan(c, d)[k] == CreateBalancer(d)
    modifies api
    ensures api.Valid() && api.faults >= old(api.faults)
    ensures PassResult(c, d, k', api.state, r, api.faults == old(api.faults))
  {
    var reply;
    reply, k' := Send(api, CreateBalancer(d), c, Plan(c, d), k);
    if !reply.Done? {
      return Error, k';
    }
    assert Plan(c, d)[..k'] == Plan(c, d);
    FirstListener(c, d, api.state, reply.id);
    var lb := api.state.balancers[reply.id];
    r := if |lb.listeners| == 0 then NoListener else AddressOf(lb.listeners[0]);
  }

  /** Send requests one after the other until one does not get through. */
  method SendEach(api: CloudApi, rs: seq<Request>, ghost c: CloudState, ghost plan: seq<Request>, ghost k: nat)
    returns (ok: bool, ghost k': nat)
    requires k + |rs| <= |plan| && plan[k..k + |rs|] == rs
    requires api.Valid() && Performed(c, plan[..k], api.state)
    modifies api
    ensures api.Valid() && api.faults >= old(api.faults)
    ensures k <= k' <= k + |rs| && Performed(c, plan[..k'], api.state)
    ensures ok ==> k' == k + |rs|
    ensures ok && rs == [] ==> api.state == old(api.state)
    ensures api.faults == old(api.faults) && AcceptsAll(c, plan) ==> ok
  {
    k' := k;
    for i := 0 to |rs|
      invariant api.Valid() && api.faults >= old(api.faults)
      invariant k' == k + i && Performed(c, plan[..k'], api.state)
      invariant i == 0 ==> api.state == old(api.state)
    {
      assert rs[i] == plan[k'];
      var reply;
      reply, k' := Send(api, rs[i], c, plan, k');
      if !reply.Done? {
        return false, k';
      }
    }
    ok := true;
  }

  /** First all requests that take something away, then all that put something there. */
  method SendBoth(api: CloudApi, removing: seq<Request>, adding: seq<Request>, ghost c: CloudState,
                  ghost before: seq<Request>, ghost after: seq<Request>)
    returns (ok: bool, dirty: bool, ghost k: nat)
    requires api.Valid() && Performed(c, before, api.state)
    modifies api
    ensures api.Valid() && api.faults >= old(api.faults)
    ensures var plan := before + (removing + adding) + after;
            && k <= |plan| && Performed(c, plan[..k], api.state)
            && (ok ==> k == |before + (removing + adding)|)
            && (api.faults == old(api.faults) && AcceptsAll(c, plan) ==> ok)
    ensures ok && !dirty ==> api.state == old(api.state)
  {
    ghost var plan := before + (removing + adding) + after;
    k := |before|;
    assert plan[..k] == before && plan[k..k + |removing|] == removing;
    assert plan[k + |removing|..k + |removing| + |adding|] == adding;
    hide *;
    dirty := |removing| > 0;
    ok, k := SendEach(api, removing, c, plan, k);
    if !ok {
      return;
    }
    dirty := dirty || |adding| > 0;
    ok, k := SendEach(api, adding, c, plan, k);
  }

  ghost function ListenerRequests(id: Id, b: Balancer, d: Balancer): seq<Request> {
    Removals(id, UnwantedListeners(b, d)) + Additions(id, MissingListeners(b, d))
  }

  ghost function AttachmentRequests(id: Id, b: Balancer, d: Balancer): seq<Request> {
    Detachments(id, UnwantedGroups(b, d)) + Attachments(id, MissingGroups(b, d))
  }

  /** An update is about listeners first, about groups afterwards. */
  lemma UpdateHalves(c: CloudState, d: Balancer, id: Id)
    requires BalancersNamed(c, d.name) == {id} && c.balancers[id].kind == d.kind
    ensures Plan(c, d) == ListenerRequests(id, c.balancers[id], d) + AttachmentRequests(id, c.balancers[id], d)
  {
    PlanOfNamed(c, d, id);
    hide UnwantedListeners, MissingListeners, UnwantedGroups, MissingGroups, Removals, Additions, Detachments,
      Attachments;
  }

  method UpdateListeners(api: CloudApi, id: Id, lb: Balancer, d: Balancer, ghost after: seq<Request>)
    returns (ok: bool, dirty: bool, ghost k: nat)
    requires api.Valid()
    modifies api
    ensures api.Valid() && api.faults >= old(api.faults)
    ensures var plan := ListenerRequests(id, lb, d) + after;
            && k <= |plan| && Performed(old(api.state), plan[..k], api.state)
            && (ok ==> k == |ListenerRequests(id, lb, d)|)
            && (api.faults == old(api.faults) && AcceptsAll(old(api.state), plan) ==> ok)
    ensures ok && !dirty ==> api.state == old(api.state)
  {
    var toAdd, toRemove := DiffListeners(d.listeners, lb.listeners);
    ok, dirty, k := SendBoth(api, Removals(id, toRemove), Additions(id, toAdd), api.state, [], after);
    assert [] + (Removals(id, toRemove) + Additions(id, toAdd)) == ListenerRequests(id, lb, d);
  }

  method UpdateAttachments(api: CloudApi, id: Id, lb: Balancer, d: Balancer, ghost c: CloudState,
                           ghost before: seq<Request>)
    returns (ok: bool, dirty: bool, ghost k: nat)
    requires api.Valid() && Performed(c, before, api.state) && AllComparable(lb.attached, d.attached)
    modifies api
    ensures api.Valid() && api.faults >= old(api.faults)
    ensures var plan := before + AttachmentRequests(id, lb, d);
            && k <= |plan| && Performed(c, plan[..k], api.state) && (ok ==> k == |plan|)
            && (api.faults == old(api.faults) && AcceptsAll(c, plan) ==> ok)
    ensures ok && !dirty ==> api.state == old(api.state)
  {
    var toAttach, toDetach := DiffAttachedGroups(d.attached, lb.attached);
    ok, dirty, k := SendBoth(api, Detachments(id, toDetach), Attachments(id, toAttach), c, before, []);
    assert before + AttachmentRequests(id, lb, d) + [] == before + AttachmentRequests(id, lb, d);
  }

  /** The requests that bring an existing balancer of the right kind into line. */
  method UpdateLB(api: CloudApi, id: Id, lb: Balancer, d: Balancer) returns (ok: bool, dirty: bool, ghost k: nat)
    requires api.Valid() && AllComparable(lb.attached, d.attached)
    requires BalancersNamed(api.state, d.name) == {id} && api.state.balancers[id] == lb && lb.kind == d.kind
    modifies api
    ensures api.Valid() && api.faults >= old(api.faults)
    ensures IsPass(old(api.state), d, k, api.state) && (ok ==> k == |Plan(old(api.state), d)|)
    ensures api.faults == old(api.faults) && AcceptsAll(old(api.state), Plan(old(api.state), d)) ==> ok
    ensures !dirty && ok ==> api.state == old(api.state)
  {
    hide Plan, Performed, AcceptsAll, ListenerRequests, AttachmentRequests, AllComparable;
    ghost var c := api.state;
    ghost var first, second := ListenerRequests(id, lb, d), AttachmentRequests(id, lb, d);
    UpdateHalves(c, d, id);
    ok, dirty, k := UpdateListeners(api, id, lb, d, second);
    if !ok {
      return;
    }
    assert (first + second)[..|first|] == first;
    var alsoDirty;
    ok, alsoDirty, k := UpdateAttachments(api, id, lb, d, c, first);
    dirty := dirty || alsoDirty;
  }

  /** An update, and a second look at the balancer if anything was changed. */
  method UpdateAndLook(api: CloudApi, id: Id, lb: Balancer, d: Balancer) returns (r: Outcome, ghost k: nat)
    requires api.Valid() && AllComparable(lb.attached, d.attached)
    requires BalancersNamed(api.state, d.name) == {id} && api.state.balancers[id] == lb && lb.kind == d.kind
    modifies api
    ensures api.Valid() && api.faults >= old(api.faults)
    ensures PassResult(old(api.state), d, k, api.state, r, api.faults == old(api.faults))
  {
    hide Plan, Settled, AcceptsAll, Accepts, Perform;
    ghost var c := api.state;
    var ok, dirty;
    ok, dirty, k := UpdateLB(api, id, lb, d);
    if !ok {
      return Error, k;
    }
    StillThere(c, d, id, k, api.state);
    assert Plan(c, d)[..k] == Plan(c, d);
    var now := lb;
    if dirty {
      var found := GetLbByName(api, d.name);
      if !found.LookedUp? {
        return Error, k;
      }
      now := api.state.balancers[found.id.value];
    }
    r := if |now.listeners| == 0 then NoListener else AddressOf(now.listeners[0]);
    if ValidBalancer(d) { FirstListener(c, d, api.state, id); }
  }

  /** A pass carries out some prefix of its plan, all of it if it reports an address.  It fails only
      if the environment made a call fail, a name is ambiguous or a request is not one the cloud takes. */
  method CreateOrUpdateLB(api: CloudApi, name: string, listenerSpec: seq<Listener>, attachedTGs: seq<AttachedGroup>)
    returns (r: Outcome, ghost k: nat)
    requires api.Valid() && UpdateComparable(api.state, Requested(name, listenerSpec, attachedTGs))
    modifies api
    ensures api.Valid() && api.faults >= old(api.faults)
    ensures var c, d := old(api.state), Requested(name, listenerSpec, attachedTGs);
            if AtMostOne(BalancersNamed(c, name)) then
              PassResult(c, d, k, api.state, r, api.faults == old(api.faults))
            else r.Error? && api.state == c
    ensures !r.Error? && ValidBalancer(Requested(name, listenerSpec, attachedTGs)) ==>
              Built(api.state, name, listenerSpec, attachedTGs, r)
  {
    hide Plan, Settled, AcceptsAll, Accepts, Perform, Built, ValidBalancer;
    k := 0;
    var kind := KindFor(listenerSpec);
    var d := Balancer(name, kind, listenerSpec, attachedTGs);
    assert d == Requested(name, listenerSpec, attachedTGs);
    ghost var c := api.state;

    var found := GetLbByName(api, name);
    if AtMostOne(BalancersNamed(c, name)) { assert Plan(c, d)[..0] == []; }
    if found.LookupFailed? {
      return Error, 0;
    }
    if found.LookupNotFound? || found.id.None? {
      PlanOfNone(c, d);
      r, k := CreateLB(api, d, c, 0);
      AnswerIsBuilt(c, d, k, api.state, r, api.faults == old(api.faults));
      return;
    }

    var id := found.id.value;
    var lb := api.state.balancers[id];
    if lb.kind != d.kind {
      PlanOfReplaced(c, d, id);
      var reply;
      reply, k := Send(api, DeleteBalancer(id), c, Plan(c, d), 0);
      if !reply.Done? {
        return Error, k;
      }
      r, k := CreateLB(api, d, c, 1);
      AnswerIsBuilt(c, d, k, api.state, r, api.faults == old(api.faults));
      return;
    }
    r, k := UpdateAndLook(api, id, lb, d);
    AnswerIsBuilt(c, d, k, api.state, r, api.faults == old(api.faults));
  }

  /** Delete the balancer with a name if there is one; it may be gone by the time of the delete. */
  method RemoveLBByName(api: CloudApi, name: string) returns (ok: bool, ghost done: seq<Request>)
    requires api.Valid()
    modifies api
    ensures api.Valid() && api.faults >= old(api.faults)
    ensures Performed(old(api.state), done, api.state)
    ensures done == [] || exists id :: BalancersNamed(old(api.state), name) == {id} && done == [DeleteBalancer(id)]
    ensures ok ==> BalancersNamed(api.state, name) == {}
    ensures api.faults == old(api.faults) && AtMostOne(BalancersNamed(old(api.state), name)) ==> ok
  {
    done := [];
    var found := GetLbByName(api, name);
    if !found.LookedUp? {
      return false, [];
    }
    if found.id.None? {
      return true, [];
    }
    var id := found.id.value;
    ghost var c := api.state;
    var reply;
    reply, done := api.Call(DeleteBalancer(id));
    assert done != [] ==> After(c, done) == After(Perform(c, done[0]), []);
    ok := !reply.Failed?;
  }
}
