/** The route operations as calls that share a table and a lock with any number of other calls
    (pkg/cloudprovider/yandex/routes.go:26-145). */
module RouteApi {
  import opened Seqs
  import Cloud
  import RouteLaws
  import RouteService
  import opened Routes
  import opened RouteMap
  import opened RouteProtocol

  /** What other calls cannot take from call c, least of all the table while c holds the lock. */
  ghost predicate Undisturbed(s: State, t: State, c: CallId) {
    && c in s.calls && c in t.calls && t.calls[c] == s.calls[c] && s.log <= t.log
    && (s.holder == Some(c) ==> t.holder == Some(c) && t.table == s.table)
    && (forall x :: x in t.log && x.call == c ==> x in s.log)
  }

  lemma OthersStep(s: State, e: Event, c: CallId)
    requires LockInv(s) && Enabled(s, e) && e.call != c && c in s.calls
    ensures Undisturbed(s, Next(s, e), c)
  {
    hide Rewrite, Listing, NextHopIn, AfterGet;
  }

  /** Calls stay on record with the time of their arrival. */
  ghost predicate SameArrivals(s: State, t: State) {
    forall c :: c in s.calls ==> c in t.calls && t.calls[c].since == s.calls[c].since
  }

  lemma ArrivalsKept(s: State, e: Event)
    requires Enabled(s, e)
    ensures SameArrivals(s, Next(s, e)) && s.log <= Next(s, e).log
  {
    hide Rewrite, Listing, NextHopIn, AfterGet;
  }

  /** The term points the node's route to its first internal address. */
  ghost predicate IsAddition(t: Term, node: string, cidr: string, addresses: Option<seq<NodeAddress>>) {
    && t.termType.AddOrUpdate? && t.nodeName == node && t.destinationCidr == cidr
    && t.nextHop != "" && addresses.Some?
    && exists j :: IsFirstInternal(addresses.value, j) && t.nextHop == addresses.value[j].address
  }

  class RouteTable {
    const init: seq<StaticRoute>
    var world: State
    ghost var trace: seq<Event>  // all steps so far

    ghost predicate Valid()
      reads this
    {
      IsRun(init, trace) && world == EndOf(init, trace)
    }

    constructor (table: seq<StaticRoute>)
      ensures Valid() && init == table && world == Start(table)
    {
      init, world, trace := table, Start(table), [];
    }

    ghost predicate At(c: CallId, op: Operation, stage: Stage)
      reads this
    {
      c in world.calls && world.calls[c].op == op && world.calls[c].stage == stage
      && (IsCritical(stage) ==> world.holder == Some(c))
    }

    /** All that took effect of call c is this term. */
    ghost predicate OnlyEffect(c: CallId, term: Option<Term>)
      reads this
    {
      forall x :: x in world.log && x.call == c ==> Some(x.term) == term
    }

    twostate predicate Grown()
      reads this
    {
      old(trace) <= trace && old(world).log <= world.log && SameArrivals(old(world), world)
    }

    method Do(e: Event)
      requires Valid() && Enabled(world, e)
      modifies this
      ensures Valid() && world == Next(old(world), e) && trace == old(trace) + [e] && Grown()
    {
      ArrivalsKept(world, e);
      OneMoreEvent(init, trace, e);
      world, trace := Next(world, e), trace + [e];
    }

    /** Any number of steps of other calls. */
    method Others(c: CallId)
      requires Valid() && c in world.calls
      modifies this
      ensures Valid() && Undisturbed(old(world), world, c) && Grown()
    {
      hide Next, Rewrite, Listing, IsRun, EndOf, LockInv;
      var steps :| 0 <= steps;
      for i := 0 to steps
        invariant Valid() && Undisturbed(old(world), world, c) && Grown()
      {
        var e: Event := *;
        if e.call != c && Enabled(world, e) {
          RunKeepsInv(init, trace);
          OthersStep(world, e, c);
          Do(e);
        }
      }
    }

    lemma NotLogged(c: CallId)
      requires Valid() && c !in world.calls
      ensures forall x :: x in world.log ==> x.call != c
    {
      RunKeepsInv(init, trace);
      forall x | x in world.log ensures x.call != c {
        var i :| 0 <= i < |world.log| && world.log[i] == x;
        assert LogEntryInv(world, i);
      }
    }

    method Begin(c: CallId, op: Operation)
      requires Valid() && c !in world.calls
      modifies this
      ensures Valid() && At(c, op, Arrived) && Grown() && world.calls[c].since == |old(world).log|
      ensures OnlyEffect(c, None)
    {
      NotLogged(c);
      Do(Arrive(c, op));
    }

    method AcquireLock(c: CallId, ghost op: Operation) returns (got: bool)
      requires Valid() && At(c, op, Arrived) && OnlyEffect(c, None)
      modifies this
      ensures Valid() && At(c, op, if got then HasLock else Returned(Busy)) && Grown() && OnlyEffect(c, None)
    {
      Others(c);
      got := world.holder.None?;
      Do(TryLock(c));
    }

    method GetRouteTable(c: CallId, ghost op: Operation) returns (rt: Option<seq<StaticRoute>>)
      requires Valid() && At(c, op, HasLock) && OnlyEffect(c, None)
      modifies this
      ensures Valid() && Grown() && OnlyEffect(c, None)
      ensures At(c, op, if rt.Some? then AfterGet(op, rt.value) else Finishing(Failure))
    {
      hide Rewrite, Listing, NextHopIn;
      Others(c);
      var answered: bool := *;
      rt := if answered then Some(world.table) else None;
      Do(Get(c, answered));
    }

    /** Look for the address of the node. */
    method FindNextHopFor(c: CallId, op: Operation, ghost rt: seq<StaticRoute>, addresses: Option<seq<NodeAddress>>)
      returns (nextHop: string)
      requires Valid() && op.CreateRoute? && At(c, op, HasTable(rt)) && OnlyEffect(c, None)
      modifies this
      ensures Valid() && Grown() && OnlyEffect(c, None)
      ensures nextHop != "" ==>
                && addresses.Some?
                && exists j :: IsFirstInternal(addresses.value, j) && nextHop == addresses.value[j].address
      ensures At(c, op, if nextHop == "" then Finishing(Failure) else HasTerm(rt, AdditionTerm(op, nextHop)))
    {
      hide Rewrite, Listing;
      Others(c);
      nextHop := "";
      if addresses.Some? {
        nextHop := FindNextHop(addresses.value);
      }
      Do(FindAddress(c, addresses));
    }

    /** Overwrite the whole table with what was made of an earlier reading of it. */
    method UpdateRouteTable(c: CallId, routes: seq<StaticRoute>, ghost op: Operation, ghost rt: seq<StaticRoute>,
                            ghost term: Term)
      returns (ok: bool)
      requires Valid() && At(c, op, HasTerm(rt, term)) && routes == Rewrite(rt, [term]) && OnlyEffect(c, None)
      modifies this
      ensures Valid() && Grown() && At(c, op, Finishing(if ok then Success else Failure)) && OnlyEffect(c, Some(term))
      ensures ok ==> Effect(c, term) in world.log
    {
      hide Rewrite, Listing, NextHopIn;
      Others(c);
      var fate: Cloud.Fate := *;
      ok := fate.Succeeds?;
      ghost var e := Update(c, fate);
      OneMoreEvent(init, trace, e);
      ArrivalsKept(world, e);
      world := if fate.LostBefore? then Move(world, c, Finishing(Failure)) else Written(world, c, routes, fate);
      trace := trace + [e];
      if ok { assert world.log[|world.log| - 1] == Effect(c, term); }
    }

    /** The deferred unlock. */
    method ReleaseLock(c: CallId, ghost op: Operation, ghost result: Result, ghost term: Option<Term>)
      requires Valid() && At(c, op, Finishing(result)) && OnlyEffect(c, term)
      modifies this
      ensures Valid() && At(c, op, Returned(result)) && Grown() && OnlyEffect(c, term)
    {
      hide Rewrite, Listing, NextHopIn;
      Others(c);
      Do(Unlock(c));
    }

    /** The rewrite and the update that creating and deleting have in common. */
    method WriteRoutes(c: CallId, ghost op: Operation, rt: seq<StaticRoute>, term: Term) returns (result: Result)
      requires Valid() && At(c, op, HasTerm(rt, term)) && OnlyEffect(c, None)
      modifies this
      ensures Valid() && Grown() && At(c, op, Returned(result)) && OnlyEffect(c, Some(term))
      ensures result == Failure || (result == Success && Effect(c, term) in world.log)
    {
      hide Rewrite, IsRun, EndOf;
      var newStaticRoutes := FilterStaticRoutes(rt, [term]);
      var ok := UpdateRouteTable(c, newStaticRoutes, op, rt, term);
      result := if ok then Success else Failure;
      ReleaseLock(c, op, result, Some(term));
    }

    /** What a completed call leaves behind, whatever other calls did meanwhile. */
    ghost predicate Completed(c: CallId, op: Operation, result: Result)
      reads this
    {
      && At(c, op, Returned(result))
      && (result == Success ==> multiset(CallsOf(world.log))[c] == 1)
      && (result == Busy ==> c !in CallsOf(world.log))
      && (forall x :: x in world.log && x.call == c ==> Asks(op, x.term))
      && world.table == RouteLaws.Fold(init, TermsOf(world.log))
    }

    method CreateRoute(c: CallId, node: string, cidr: string, addresses: Option<seq<NodeAddress>>)
      returns (result: Result)
      requires Valid() && c !in world.calls
      modifies this
      ensures Valid() && Grown() && Completed(c, RouteProtocol.CreateRoute(node, cidr), result)
      ensures forall x :: x in world.log && x.call == c ==> IsAddition(x.term, node, cidr, addresses)
      ensures result == Success ==> exists x :: x in world.log && x.call == c
      ensures addresses.None? || (forall i :: 0 <= i < |addresses.value| ==> !addresses.value[i].InternalIP?) ==>
                result != Success && forall x :: x in world.log ==> x.call != c
      ensures result == Success || result == Busy || result == Failure
    {
      hide IsRun, EndOf;
      var op := RouteProtocol.CreateRoute(node, cidr);
      Begin(c, op);
      result := CreateUnderLock(c, op, addresses);
      CompletedIs(c, op, result);
    }

    method CreateUnderLock(c: CallId, op: Operation, addresses: Option<seq<NodeAddress>>) returns (result: Result)
      requires Valid() && op.CreateRoute? && At(c, op, Arrived) && OnlyEffect(c, None)
      modifies this
      ensures Valid() && Grown() && At(c, op, Returned(result))
      ensures forall x :: x in world.log && x.call == c ==> IsAddition(x.term, op.node, op.cidr, addresses)
      ensures result == Success ==> exists x :: x in world.log && x.call == c
      ensures result == Success || result == Busy || result == Failure
    {
      hide IsRun, EndOf, NextHopIn;
      var got := AcquireLock(c, op);
      if !got {
        return Busy;
      }
      var rt := GetRouteTable(c, op);
      if rt.None? {
        ReleaseLock(c, op, Failure, None);
        return Failure;
      }
      var nextHop := FindNextHopFor(c, op, rt.value, addresses);
      if |nextHop| == 0 {
        ReleaseLock(c, op, Failure, None);
        return Failure;
      }
      result := WriteRoutes(c, op, rt.value, AdditionTerm(op, nextHop));
    }

    method DeleteRoute(c: CallId, node: string) returns (result: Result)
      requires Valid() && c !in world.calls
      modifies this
      ensures Valid() && Grown() && Completed(c, RouteProtocol.DeleteRoute(node), result)
      ensures result == Success ==> Effect(c, Term(Remove, node, "", "")) in world.log
      ensures forall x :: x in world.log && x.call == c ==> x == Effect(c, Term(Remove, node, "", ""))
      ensures result == Success || result == Busy || result == Failure
    {
      hide IsRun, EndOf;
      var op := RouteProtocol.DeleteRoute(node);
      Begin(c, op);
      result := DeleteUnderLock(c, op);
      CompletedIs(c, op, result);
    }

    method DeleteUnderLock(c: CallId, op: Operation) returns (result: Result)
      requires Valid() && op.DeleteRoute? && At(c, op, Arrived) && OnlyEffect(c, None)
      modifies this
      ensures Valid() && Grown() && At(c, op, Returned(result)) && OnlyEffect(c, Some(RemovalTerm(op)))
      ensures result == Success ==> Effect(c, RemovalTerm(op)) in world.log
      ensures result == Success || result == Busy || result == Failure
    {
      hide IsRun, EndOf;
      var got := AcquireLock(c, op);
      if !got {
        return Busy;
      }
      var rt := GetRouteTable(c, op);
      if rt.None? {
        ReleaseLock(c, op, Failure, None);
        return Failure;
      }
      result := WriteRoutes(c, op, rt.value, RemovalTerm(op));
    }

    method ListRoutes(c: CallId) returns (result: Result)
      requires Valid() && c !in world.calls
      modifies this
      ensures Valid() && Grown() && Completed(c, RouteProtocol.ListRoutes, result)
      ensures result.Listed? || result == Busy || result == Failure
      ensures result.Listed? ==> exists k ::
        |old(world).log| <= k <= |world.log| && result.routes == Listing(RouteLaws.Fold(init, TermsOf(world.log[..k])))
    {
      hide IsRun, EndOf, Listing;
      var op := RouteProtocol.ListRoutes;
      Begin(c, op);
      result := ListUnderLock(c, op);
      CompletedIs(c, op, result);
      if result.Listed? { ListedIs(c, op, result.routes); }
    }

    method ListUnderLock(c: CallId, ghost op: Operation) returns (result: Result)
      requires Valid() && op.ListRoutes? && At(c, op, Arrived) && OnlyEffect(c, None)
      modifies this
      ensures Valid() && Grown() && At(c, op, Returned(result))
      ensures result.Listed? || result == Busy || result == Failure
    {
      hide IsRun, EndOf, Listing;
      var got := AcquireLock(c, op);
      if !got {
        return Busy;
      }
      var rt := GetRouteTable(c, op);
      if rt.None? {
        ReleaseLock(c, op, Failure, None);
        return Failure;
      }
      var cpiRoutes := NodeRoutes(rt.value);
      result := Listed(cpiRoutes);
      ReleaseLock(c, op, result, None);
    }

    lemma ListedIs(c: CallId, op: Operation, rs: seq<NodeRoute>)
      requires Valid() && At(c, op, Returned(Listed(rs)))
      ensures var k := world.calls[c].seen;
              world.calls[c].since <= k <= |world.log| && rs == Listing(RouteLaws.Fold(init, TermsOf(world.log[..k])))
    {
      RunKeepsInv(init, trace);
      assert HasResult(world.calls[c].stage, Listed(rs));
      assert ListedInv(init, world, c, rs);
    }

    lemma CompletedIs(c: CallId, op: Operation, result: Result)
      requires Valid() && At(c, op, Returned(result))
      ensures Completed(c, op, result)
    {
      RouteService.NoLostUpdates(init, trace);
    }
  }
}
