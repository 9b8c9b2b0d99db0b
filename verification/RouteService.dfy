/** What holds over every interleaving of route operations, and the operations themselves
    (pkg/cloudprovider/yandex/routes.go:23-145). */
module RouteService {
  import opened Seqs
  import Cloud
  import opened Routes
  import opened RouteLaws
  import opened RouteMap
  import opened RouteProtocol

  lemma CallsOfDistinct(log: seq<Effect>)
    requires DistinctBy(log, CallOf)
    ensures Distinct(CallsOf(log))
  {
    assert forall i :: 0 <= i < |log| ==> CallsOf(log)[i] == CallOf(log[i]);
  }

  /** In every run the table is the fold of the updates that took effect, in the order in which their
      calls got the lock; a call that reported success took effect exactly once, one that found the lock
      taken never did, and nothing takes effect that no call asked for. */
  lemma NoLostUpdates(init: seq<StaticRoute>, es: seq<Event>)
    requires IsRun(init, es)
    ensures var s := EndOf(init, es);
            && s.table == Fold(init, TermsOf(s.log))
            && CallsOf(s.log) == Effective(s.order, s.log)
            && (forall c :: c in s.calls && s.calls[c].stage == Returned(Success) ==> multiset(CallsOf(s.log))[c] == 1)
            && (forall c :: c in s.calls && s.calls[c].stage == Returned(Busy) ==> c !in CallsOf(s.log))
            && (forall x :: x in s.log ==> x.call in s.calls && Asks(s.calls[x.call].op, x.term))
  {
    RunKeepsInv(init, es);
    var s := EndOf(init, es);
    CallsOfDistinct(s.log);
    forall c | c in CallsOf(s.log) ensures c in s.calls && s.calls[c].stage != Returned(Busy) { LoggedHasResult(s, c); }
    forall c | c in s.calls && s.calls[c].stage == Returned(Success) ensures multiset(CallsOf(s.log))[c] == 1 {
      assert HasResult(s.calls[c].stage, Success);
      DistinctMultiset(CallsOf(s.log), c);
    }
    forall x | x in s.log ensures x.call in s.calls && Asks(s.calls[x.call].op, x.term) {
      var i :| 0 <= i < |s.log| && s.log[i] == x;
      assert LogEntryInv(s, i);
    }
  }

  /** Starting with at most one route a node, there never are two, the table acts like the map under the
      effective creations and deletions, and every listing is that map at a moment of its call. */
  lemma TableRefinesMap(init: seq<StaticRoute>, es: seq<Event>)
    requires IsRun(init, es) && OnePerNode(init)
    ensures var s := EndOf(init, es);
            && OnePerNode(s.table) && MapOf(s.table) == ApplyAll(MapOf(init), TermsOf(s.log))
            && forall c, rs :: c in s.calls && s.calls[c].stage == Returned(Listed(rs)) ==>
                 exists k :: s.calls[c].since <= k <= |s.log| &&
                   IsListing(rs, ApplyAll(MapOf(init), TermsOf(s.log[..k])))
  {
    RunKeepsInv(init, es);
    var s := EndOf(init, es);
    hide IsRun, EndOf, OnePerNode, MapOf, ApplyAll, TermsOf, IsListing, LockInv, SnapshotInv, LogInv, OrderInv,
      ReadersCreate;
    FoldRefinesMap(init, TermsOf(s.log));
    forall c, rs | c in s.calls && s.calls[c].stage == Returned(Listed(rs))
      ensures exists k :: s.calls[c].since <= k <= |s.log| && IsListing(rs, ApplyAll(MapOf(init), TermsOf(s.log[..k])))
    {
      ListedIsMap(init, s, c, rs);
    }
  }

  lemma ListedIsMap(init: seq<StaticRoute>, s: State, c: CallId, rs: seq<NodeRoute>)
    requires OnePerNode(init) && ResultInv(init, s) && c in s.calls && s.calls[c].stage == Returned(Listed(rs))
    ensures var k := s.calls[c].seen;
            s.calls[c].since <= k <= |s.log| && IsListing(rs, ApplyAll(MapOf(init), TermsOf(s.log[..k])))
  {
    hide OnePerNode, MapOf, ApplyAll, TermsOf, Fold, Listing;
    assert HasResult(s.calls[c].stage, Listed(rs));
    assert ListedInv(init, s, c, rs);
    var terms := TermsOf(s.log[..s.calls[c].seen]);
    FoldRefinesMap(init, terms);
    ListingIsMap(Fold(init, terms));
  }

  /** The listing has one entry for every node of the map, with its destination, and no other. */
  ghost predicate IsListing(rs: seq<NodeRoute>, m: map<string, Entry>) {
    && DistinctBy(rs, NodeOf)
    && forall x :: x in rs <==> x.name == x.targetNode && x.targetNode in m && x.destinationCidr == m[x.targetNode].cidr
  }

  /** If no reply is lost after its update took effect, exactly the calls that report success took effect. */
  lemma {:induction false} QuietRunsReport(init: seq<StaticRoute>, es: seq<Event>)
    requires IsRun(init, es) && forall e :: e in es && e.Update? ==> !e.fate.LostAfter?
    ensures var s := EndOf(init, es);
            forall c :: c in CallsOf(s.log) <==> c in s.calls && HasResult(s.calls[c].stage, Success)
    decreases |es|
  {
    if es != [] {
      var front, e := es[..|es| - 1], es[|es| - 1];
      assert forall x :: x in front ==> x in es;
      QuietRunsReport(init, front);
      RunKeepsInv(init, front);
      RunKeepsInv(init, es);
      QuietStep(EndOf(init, front), e);
    }
  }

  lemma QuietStep(s: State, e: Event)
    requires Enabled(s, e) && (e.Update? ==> !e.fate.LostAfter?)
    requires forall c :: c in CallsOf(s.log) <==> c in s.calls && HasResult(s.calls[c].stage, Success)
    ensures var t := Next(s, e);
            forall c :: c in CallsOf(t.log) <==> c in t.calls && HasResult(t.calls[c].stage, Success)
  {
    if e.Update? && !e.fate.LostBefore? {
      TermsSnoc(s.log, Effect(e.call, s.calls[e.call].stage.term));
    }
    hide CallsOf, Rewrite, Listing, NextHopIn;
  }

  /** How many events the holder of the lock is away from having released it. */
  function StepsLeft(stage: Stage): nat {
    match stage
    case HasLock => 4
    case HasTable(_) => 3
    case HasTerm(_, _) => 2
    case Finishing(_) => 1
    case _ => 0
  }

  /** What the holder of the lock may do next when nothing goes wrong. */
  function NextStep(c: CallId, stage: Stage): Event {
    match stage
    case HasLock => Get(c, true)
    case HasTable(_) => FindAddress(c, Some([InternalIP("10.0.0.1")]))
    case HasTerm(_, _) => Update(c, Cloud.Succeeds)
    case _ => Unlock(c)
  }

  lemma NextStepLeaves(s: State, c: CallId)
    requires LockInv(s) && ReadersCreate(s) && s.holder == Some(c)
    ensures var e := NextStep(c, s.calls[c].stage);
            && e.call == c && Enabled(s, e) && (e.Unlock? ==> Next(s, e).holder == None)
            && (!e.Unlock? ==> Next(s, e).holder == Some(c)
                               && StepsLeft(Next(s, e).calls[c].stage) < StepsLeft(s.calls[c].stage))
  {
    hide Rewrite, Listing;
  }

  /** The lock is never stuck: its holder can always run to its unlock by itself, in at most four steps. */
  lemma {:induction false} LockCanBeReleased(init: seq<StaticRoute>, es: seq<Event>, c: CallId)
    returns (more: seq<Event>)
    requires IsRun(init, es) && EndOf(init, es).holder == Some(c)
    ensures c in EndOf(init, es).calls && |more| <= StepsLeft(EndOf(init, es).calls[c].stage) <= 4
    ensures forall e :: e in more ==> e.call == c
    ensures IsRun(init, es + more) && EndOf(init, es + more).holder == None
    decreases if c in EndOf(init, es).calls then StepsLeft(EndOf(init, es).calls[c].stage) else 0
  {
    hide *;
    var s := EndOf(init, es);
    HolderIsKnown(init, es, c);
    var e := NextStep(c, s.calls[c].stage);
    NextStepLeaves(s, c);
    OneMoreEvent(init, es, e);
    more := [e];
    if !e.Unlock? {
      HolderIsKnown(init, es + [e], c);
      var rest := LockCanBeReleased(init, es + [e], c);
      assert es + ([e] + rest) == es + [e] + rest;
      more := [e] + rest;
    }
  }

  /** Without other calls and failures a creation that finds the lock free takes effect and reports it. */
  lemma CreateAloneSucceeds(init: seq<StaticRoute>, es: seq<Event>, c: CallId, node: string, cidr: string,
                            addresses: seq<NodeAddress>, j: int)
    requires IsRun(init, es) && EndOf(init, es).holder.None? && c !in EndOf(init, es).calls
    requires IsFirstInternal(addresses, j) && addresses[j].address != ""
    ensures var all := es + [Arrive(c, CreateRoute(node, cidr))] + [TryLock(c)] + [Get(c, true)]
                          + [FindAddress(c, Some(addresses))] + [Update(c, Cloud.Succeeds)] + [Unlock(c)];
            && IsRun(init, all) && EndOf(init, all).holder.None?
            && c in EndOf(init, all).calls && EndOf(init, all).calls[c].stage == Returned(Success)
            && EndOf(init, all).table ==
               Rewrite(EndOf(init, es).table, [Term(AddOrUpdate, node, cidr, addresses[j].address)])
  {
    NextHopIs(addresses, j);
    hide IsRun, EndOf, Rewrite, Listing, NextHopIn;
    var all := Extended(init, es, Arrive(c, CreateRoute(node, cidr)));
    all := Extended(init, all, TryLock(c));
    all := Extended(init, all, Get(c, true));
    all := Extended(init, all, FindAddress(c, Some(addresses)));
    all := Extended(init, all, Update(c, Cloud.Succeeds));
    all := Extended(init, all, Unlock(c));
  }

  /** So does a deletion. */
  lemma DeleteAloneSucceeds(init: seq<StaticRoute>, es: seq<Event>, c: CallId, node: string)
    requires IsRun(init, es) && EndOf(init, es).holder.None? && c !in EndOf(init, es).calls
    ensures var all := es + [Arrive(c, DeleteRoute(node))] + [TryLock(c)] + [Get(c, true)]
                          + [Update(c, Cloud.Succeeds)] + [Unlock(c)];
            && IsRun(init, all) && EndOf(init, all).holder.None?
            && c in EndOf(init, all).calls && EndOf(init, all).calls[c].stage == Returned(Success)
            && EndOf(init, all).table == Rewrite(EndOf(init, es).table, [Term(Remove, node, "", "")])
  {
    hide IsRun, EndOf, Rewrite, Listing;
    var all := Extended(init, es, Arrive(c, DeleteRoute(node)));
    all := Extended(init, all, TryLock(c));
    all := Extended(init, all, Get(c, true));
    all := Extended(init, all, Update(c, Cloud.Succeeds));
    all := Extended(init, all, Unlock(c));
  }

  /** A listing shows the table as it is. */
  lemma ListAloneSucceeds(init: seq<StaticRoute>, es: seq<Event>, c: CallId)
    requires IsRun(init, es) && EndOf(init, es).holder.None? && c !in EndOf(init, es).calls
    ensures var all := es + [Arrive(c, ListRoutes)] + [TryLock(c)] + [Get(c, true)] + [Unlock(c)];
            && IsRun(init, all) && EndOf(init, all).holder.None? && EndOf(init, all).table == EndOf(init, es).table
            && c in EndOf(init, all).calls
            && EndOf(init, all).calls[c].stage == Returned(Listed(Listing(EndOf(init, es).table)))
  {
    hide IsRun, EndOf, Rewrite, Listing;
    var all := Extended(init, es, Arrive(c, ListRoutes));
    all := Extended(init, all, TryLock(c));
    all := Extended(init, all, Get(c, true));
    all := Extended(init, all, Unlock(c));
  }

  lemma Extended(init: seq<StaticRoute>, es: seq<Event>, e: Event) returns (all: seq<Event>)
    requires IsRun(init, es) && Enabled(EndOf(init, es), e)
    ensures all == es + [e] && IsRun(init, all) && EndOf(init, all) == Next(EndOf(init, es), e)
  {
    all := es + [e];
    OneMoreEvent(init, es, e);
  }

  lemma HolderIsKnown(init: seq<StaticRoute>, es: seq<Event>, c: CallId)
    requires IsRun(init, es) && EndOf(init, es).holder == Some(c)
    ensures var s := EndOf(init, es);
            LockInv(s) && ReadersCreate(s) && c in s.calls && 1 <= StepsLeft(s.calls[c].stage) <= 4
  {
    RunKeepsInv(init, es);
    hide IsRun, EndOf;
  }

  /** A stale table, written without the lock, undoes what was written since it was read. */
  lemma StaleWriteLoses(rs: seq<StaticRoute>, mine: Term, other: Term)
    requires mine.nodeName != other.nodeName && mine.termType.AddOrUpdate? && RoutesFor(rs, mine.nodeName) == []
    ensures mine.nodeName in MapOf(Fold(rs, [mine, other]))
    ensures mine.nodeName !in MapOf(Rewrite(rs, [other]))
  {
    assert [mine, other][..1] == [mine] && [mine][..0] == [];
    assert Fold(rs, []) == rs && Fold(rs, [mine]) == Rewrite(rs, [mine]);
    OneTerm(rs, mine, mine.nodeName);
    OneTerm(Rewrite(rs, [mine]), other, mine.nodeName);
    NodesOfIff(Fold(rs, [mine, other]), mine.nodeName);
    OneTerm(rs, other, mine.nodeName);
  }
}
