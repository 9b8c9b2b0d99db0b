/**
 Concurrent route operations under the route lock (pkg/cloudprovider/yandex/routes.go:23-145).
 A state records the shared route table, the lock and how far each call has got; an event is one
 atomic step of one call.  A call goes by a number of its own.
 */
module RouteProtocol {
  import opened Seqs
  import Cloud
  import opened Routes
  import opened RouteLaws
  import opened RouteMap

  type CallId = nat

  datatype Operation =
    | CreateRoute(node: string, cidr: string)
    | DeleteRoute(node: string)
    | ListRoutes

  datatype Result = Success | Listed(routes: seq<NodeRoute>) | Busy | Failure

  datatype Stage =
    | Arrived
    | HasLock
    | HasTable(snapshot: seq<StaticRoute>)
    | HasTerm(snapshot: seq<StaticRoute>, term: Term)
    | Finishing(result: Result)  // the deferred unlock is still to come
    | Returned(result: Result)

  /** since and seen: how many updates had taken effect when the call arrived and when it read the table. */
  datatype Call = Call(op: Operation, since: nat, seen: nat, stage: Stage)

  datatype Effect = Effect(call: CallId, term: Term)

  /** order: the calls that got the lock, in that order; log: the updates that took effect. */
  datatype State = State(table: seq<StaticRoute>, holder: Option<CallId>, calls: map<CallId, Call>,
                         order: seq<CallId>, log: seq<Effect>)

  datatype NodeAddress = InternalIP(address: string) | OtherAddress(address: string)

  datatype Event =
    | Arrive(call: CallId, op: Operation)
    | TryLock(call: CallId)
    | Get(call: CallId, answered: bool)
    | FindAddress(call: CallId, addresses: Option<seq<NodeAddress>>)
    | Update(call: CallId, fate: Cloud.Fate)
    | Unlock(call: CallId)

  // Steps

  /** The first internal address, which may be empty. */
  function NextHopIn(addresses: seq<NodeAddress>): string {
    if addresses == [] then ""
    else if addresses[0].InternalIP? then addresses[0].address
    else NextHopIn(addresses[1..])
  }

  /** The j-th address is the first internal one. */
  ghost predicate IsFirstInternal(addresses: seq<NodeAddress>, j: int) {
    0 <= j < |addresses| && addresses[j].InternalIP? && forall i :: 0 <= i < j ==> !addresses[i].InternalIP?
  }

  lemma {:induction false} NextHopIs(addresses: seq<NodeAddress>, j: nat)
    requires j <= |addresses| && forall i :: 0 <= i < j ==> !addresses[i].InternalIP?
    ensures j == |addresses| ==> NextHopIn(addresses) == ""
    ensures j < |addresses| && addresses[j].InternalIP? ==> NextHopIn(addresses) == addresses[j].address
  {
    if j > 0 {
      NextHopIs(addresses[1..], j - 1);
    }
  }

  method FindNextHop(addresses: seq<NodeAddress>) returns (nextHop: string)
    ensures nextHop == NextHopIn(addresses)
    ensures (forall i :: 0 <= i < |addresses| ==> !addresses[i].InternalIP?) ==> nextHop == ""
    ensures (exists i :: 0 <= i < |addresses| && addresses[i].InternalIP?) ==>
              exists j :: IsFirstInternal(addresses, j) && nextHop == addresses[j].address
  {
    nextHop := "";
    for i := 0 to |addresses|
      invariant nextHop == "" && NextHopIn(addresses) == NextHopIn(addresses[i..])
      invariant forall k :: 0 <= k < i ==> !addresses[k].InternalIP?
    {
      if addresses[i].InternalIP? {
        assert IsFirstInternal(addresses, i);
        return addresses[i].address;
      }
    }
  }

  function AdditionTerm(op: Operation, nextHop: string): Term
    requires op.CreateRoute?
  {
    Term(AddOrUpdate, op.node, op.cidr, nextHop)
  }

  function RemovalTerm(op: Operation): Term
    requires op.DeleteRoute?
  {
    Term(Remove, op.node, "", "")
  }

  predicate Enabled(s: State, e: Event) {
    if e.Arrive? then e.call !in s.calls
    else
      e.call in s.calls
      && var stage := s.calls[e.call].stage;
         match e
         case TryLock(_) => stage.Arrived?
         case Get(_, _) => stage.HasLock?
         case FindAddress(_, _) => stage.HasTable? && s.calls[e.call].op.CreateRoute?
         case Update(_, _) => stage.HasTerm?
         case Unlock(_) => stage.Finishing?
  }

  function Move(s: State, c: CallId, stage: Stage): State
    requires c in s.calls
  {
    s.(calls := s.calls[c := s.calls[c].(stage := stage)])
  }

  function Next(s: State, e: Event): State
    requires Enabled(s, e)
  {
    match e
    case Arrive(c, op) => s.(calls := s.calls[c := Call(op, |s.log|, |s.log|, Arrived)])
    case TryLock(c) =>
      if s.holder.Some? then Move(s, c, Returned(Busy))
      else Move(s, c, HasLock).(holder := Some(c), order := s.order + [c])
    case Get(c, answered) =>
      if !answered then Move(s, c, Finishing(Failure)) else Seen(s, c, AfterGet(s.calls[c].op, s.table))
    case FindAddress(c, addresses) =>
      if addresses.None? || NextHopIn(addresses.value) == "" then Move(s, c, Finishing(Failure))
      else Move(s, c, HasTerm(s.calls[c].stage.snapshot, AdditionTerm(s.calls[c].op, NextHopIn(addresses.value))))
    case Update(c, fate) =>
      if fate.LostBefore? then Move(s, c, Finishing(Failure))
      else Written(s, c, Rewrite(s.calls[c].stage.snapshot, [s.calls[c].stage.term]), fate)
    case Unlock(c) => Move(s, c, Returned(s.calls[c].stage.result)).(holder := None)
  }

  function Seen(s: State, c: CallId, stage: Stage): State
    requires c in s.calls
  {
    s.(calls := s.calls[c := s.calls[c].(seen := |s.log|, stage := stage)])
  }

  /** What a call does with the table it got: keep it, name the removal at once, or list it. */
  function AfterGet(op: Operation, table: seq<StaticRoute>): Stage {
    match op
    case CreateRoute(_, _) => HasTable(table)
    case DeleteRoute(_) => HasTerm(table, RemovalTerm(op))
    case ListRoutes => Finishing(Listed(Listing(table)))
  }

  /** The whole table is overwritten; the caller hears of it only if the reply is not lost. */
  function Written(s: State, c: CallId, table: seq<StaticRoute>, fate: Cloud.Fate): State
    requires c in s.calls && s.calls[c].stage.HasTerm?
  {
    Move(s, c, Finishing(if fate.Succeeds? then Success else Failure))
      .(table := table, log := s.log + [Effect(c, s.calls[c].stage.term)])
  }

  // Runs

  function Start(init: seq<StaticRoute>): State { State(init, None, map[], [], []) }

  ghost predicate IsRun(init: seq<StaticRoute>, es: seq<Event>)
    decreases |es|, 0
  {
    es != [] ==> IsRun(init, es[..|es| - 1]) && Enabled(EndOf(init, es[..|es| - 1]), es[|es| - 1])
  }

  ghost function EndOf(init: seq<StaticRoute>, es: seq<Event>): State
    requires IsRun(init, es)
    decreases |es|, 1
  {
    if es == [] then Start(init) else Next(EndOf(init, es[..|es| - 1]), es[|es| - 1])
  }

  lemma OneMoreEvent(init: seq<StaticRoute>, es: seq<Event>, e: Event)
    requires IsRun(init, es) && Enabled(EndOf(init, es), e)
    ensures IsRun(init, es + [e]) && EndOf(init, es + [e]) == Next(EndOf(init, es), e)
  {
    assert (es + [e])[..|es + [e]| - 1] == es;
  }

  // What every reachable state satisfies

  function CallOf(x: Effect): CallId { x.call }
  function TermOf(x: Effect): Term { x.term }

  ghost function TermsOf(log: seq<Effect>): seq<Term> { Map(log, TermOf) }
  ghost function CallsOf(log: seq<Effect>): seq<CallId> { Map(log, CallOf) }

  predicate IsCritical(stage: Stage) { stage.HasLock? || stage.HasTable? || stage.HasTerm? || stage.Finishing? }

  predicate HasResult(stage: Stage, r: Result) {
    (stage.Finishing? || stage.Returned?) && stage.result == r
  }

  /** Exactly the holder of the lock is between locking and unlocking. */
  ghost predicate LockInv(s: State) {
    && (forall c :: c in s.calls ==> (IsCritical(s.calls[c].stage) <==> s.holder == Some(c)))
    && (s.holder.Some? ==> s.holder.value in s.calls)
  }

  /** What a call has read is still what the table is. */
  ghost predicate SnapshotInv(s: State) {
    forall c :: c in s.calls && (s.calls[c].stage.HasTable? || s.calls[c].stage.HasTerm?) ==>
      s.calls[c].stage.snapshot == s.table
  }

  /** The table is the outcome of the updates that took effect, applied one after the other. */
  ghost predicate TableInv(init: seq<StaticRoute>, s: State) {
    s.table == Fold(init, TermsOf(s.log))
  }

  /** The term is one that the operation asks for. */
  predicate Asks(op: Operation, t: Term) {
    match op
    case CreateRoute(n, cidr) => t == AdditionTerm(op, t.nextHop) && t.nextHop != ""
    case DeleteRoute(_) => t == RemovalTerm(op)
    case ListRoutes => false
  }

  /** Each update belongs to a call that asked for it, has finished and arrived before it. */
  ghost predicate LogInv(s: State) {
    && DistinctBy(s.log, CallOf)
    && (forall c :: c in s.calls && s.calls[c].stage.HasTerm? ==> Asks(s.calls[c].op, s.calls[c].stage.term))
    && (forall c :: c in s.calls ==> s.calls[c].since <= |s.log|)
    && (forall i :: 0 <= i < |s.log| ==> LogEntryInv(s, i))
  }

  ghost predicate LogEntryInv(s: State, i: nat)
    requires i < |s.log|
  {
    var c := s.log[i].call;
    && c in s.calls && s.calls[c].since <= i && Asks(s.calls[c].op, s.log[i].term)
    && (HasResult(s.calls[c].stage, Success) || HasResult(s.calls[c].stage, Failure))
  }

  /** A call that reports success took effect; a listing shows a table of the time of the call. */
  ghost predicate ResultInv(init: seq<StaticRoute>, s: State) {
    forall c :: c in s.calls ==>
      && (HasResult(s.calls[c].stage, Success) ==> c in CallsOf(s.log))
      && (forall rs :: HasResult(s.calls[c].stage, Listed(rs)) ==> ListedInv(init, s, c, rs))
  }

  ghost predicate ListedInv(init: seq<StaticRoute>, s: State, c: CallId, rs: seq<NodeRoute>)
    requires c in s.calls
  {
    && s.calls[c].since <= s.calls[c].seen <= |s.log|
    && rs == Listing(Fold(init, TermsOf(s.log[..s.calls[c].seen])))
  }

  /** Updates take effect in the order in which their calls got the lock. */
  ghost predicate OrderInv(s: State) {
    && Distinct(s.order)
    && (forall c :: c in s.calls ==> s.calls[c].stage != Finishing(Busy))
    && (forall c :: c in s.order <==> c in s.calls && !s.calls[c].stage.Arrived? && s.calls[c].stage != Returned(Busy))
    && (s.holder.Some? ==> s.order != [] && s.order[|s.order| - 1] == s.holder.value)
    && CallsOf(s.log) == Effective(s.order, s.log)
  }

  ghost function Effective(order: seq<CallId>, log: seq<Effect>): seq<CallId> {
    Filter(order, c => c in CallsOf(log))
  }

  /** Only creations look for an address after they have read the table. */
  ghost predicate ReadersCreate(s: State) {
    forall c :: c in s.calls && s.calls[c].stage.HasTable? ==> s.calls[c].op.CreateRoute?
  }

  ghost predicate Inv(init: seq<StaticRoute>, s: State) {
    LockInv(s) && ReadersCreate(s) && SnapshotInv(s) && TableInv(init, s) && LogInv(s) && ResultInv(init, s)
    && OrderInv(s)
  }

  // Each step keeps each part

  lemma LockKept(s: State, e: Event)
    requires LockInv(s) && Enabled(s, e)
    ensures LockInv(Next(s, e))
  {
    hide Rewrite, Listing, NextHopIn;
  }

  lemma ReadersKept(s: State, e: Event)
    requires ReadersCreate(s) && Enabled(s, e)
    ensures ReadersCreate(Next(s, e))
  {
    hide Rewrite, Listing, NextHopIn;
  }

  lemma SnapshotKept(s: State, e: Event)
    requires LockInv(s) && SnapshotInv(s) && Enabled(s, e)
    ensures SnapshotInv(Next(s, e))
  {
    hide Rewrite, Listing, NextHopIn;
  }

  lemma TermsSnoc(log: seq<Effect>, x: Effect)
    ensures TermsOf(log + [x]) == TermsOf(log) + [x.term]
    ensures CallsOf(log + [x]) == CallsOf(log) + [x.call]
  {
  }

  lemma TableKept(init: seq<StaticRoute>, s: State, e: Event)
    requires SnapshotInv(s) && TableInv(init, s) && Enabled(s, e)
    ensures TableInv(init, Next(s, e))
  {
    hide Rewrite, Listing, NextHopIn, Fold, TermsOf;
    if e.Update? && !e.fate.LostBefore? {
      var term := s.calls[e.call].stage.term;
      TermsSnoc(s.log, Effect(e.call, term));
      FoldSnoc(init, TermsOf(s.log), term);
    }
  }

  lemma EntryKept(s: State, e: Event, i: nat)
    requires Enabled(s, e) && i < |s.log| && LogEntryInv(s, i)
    ensures i < |Next(s, e).log| && LogEntryInv(Next(s, e), i)
  {
    hide Rewrite, Listing, NextHopIn, AfterGet;
  }

  lemma NewEntry(s: State, e: Event)
    requires LogInv(s) && Enabled(s, e) && e.Update? && !e.fate.LostBefore?
    ensures var t := Next(s, e);
            && |t.log| == |s.log| + 1 && t.log[..|s.log|] == s.log && LogEntryInv(t, |s.log|)
            && forall i :: 0 <= i < |s.log| ==> s.log[i].call != t.log[|s.log|].call
  {
    hide Rewrite, Listing, NextHopIn, DistinctBy, Asks;
    forall i | 0 <= i < |s.log| ensures s.log[i].call != e.call {
      assert LogEntryInv(s, i);
    }
  }

  lemma LogKept(s: State, e: Event)
    requires LogInv(s) && Enabled(s, e)
    ensures LogInv(Next(s, e))
  {
    var t := Next(s, e);
    forall i | 0 <= i < |s.log| ensures LogEntryInv(t, i) {
      assert LogEntryInv(s, i);
      EntryKept(s, e, i);
    }
    if e.Update? && !e.fate.LostBefore? {
      NewEntry(s, e);
      assert t.log == t.log[..|s.log|] + [t.log[|s.log|]];
      DistinctSnoc(s.log, t.log[|s.log|]);
    }
    hide Rewrite, Listing, NextHopIn, LogEntryInv, DistinctBy;
  }

  lemma DistinctSnoc(log: seq<Effect>, x: Effect)
    requires DistinctBy(log, CallOf) && forall i :: 0 <= i < |log| ==> log[i].call != x.call
    ensures DistinctBy(log + [x], CallOf)
  {
  }

  lemma LoggedHasResult(s: State, c: CallId)
    requires LogInv(s) && c in CallsOf(s.log)
    ensures c in s.calls && (HasResult(s.calls[c].stage, Success) || HasResult(s.calls[c].stage, Failure))
  {
    var i :| 0 <= i < |s.log| && CallsOf(s.log)[i] == c;
    assert LogEntryInv(s, i);
  }

  lemma ListedKept(init: seq<StaticRoute>, s: State, e: Event, c: CallId, rs: seq<NodeRoute>)
    requires Enabled(s, e) && c in s.calls && c != e.call && ListedInv(init, s, c, rs)
    ensures ListedInv(init, Next(s, e), c, rs)
  {
    hide Rewrite, Listing, NextHopIn, AfterGet, Fold, TermsOf;
    var k := s.calls[c].seen;
    assert Next(s, e).log[..k] == s.log[..k];
  }

  lemma LoggedStays(s: State, e: Event, c: CallId)
    requires Enabled(s, e) && c in CallsOf(s.log)
    ensures c in CallsOf(Next(s, e).log)
  {
    hide Rewrite, Listing, NextHopIn, AfterGet;
    var i :| 0 <= i < |s.log| && CallsOf(s.log)[i] == c;
    assert CallsOf(Next(s, e).log)[i] == c;
  }

  lemma OwnResult(init: seq<StaticRoute>, s: State, e: Event)
    requires TableInv(init, s) && LogInv(s) && ResultInv(init, s) && Enabled(s, e)
    ensures var t := Next(s, e);
            && (HasResult(t.calls[e.call].stage, Success) ==> e.call in CallsOf(t.log))
            && (forall rs :: HasResult(t.calls[e.call].stage, Listed(rs)) ==> ListedInv(init, t, e.call, rs))
  {
    if e.Get? {
      GetResult(init, s, e.call, e.answered);
    } else if e.Update? {
      UpdateResult(s, e.call, e.fate);
    } else if e.Unlock? {
      UnlockResult(init, s, e.call);
    } else {
      NoListing(s, e);
    }
    hide *;
  }

  lemma GetResult(init: seq<StaticRoute>, s: State, c: CallId, answered: bool)
    requires TableInv(init, s) && LogInv(s) && Enabled(s, Get(c, answered))
    ensures var t := Next(s, Get(c, answered));
            && !HasResult(t.calls[c].stage, Success)
            && (forall rs :: HasResult(t.calls[c].stage, Listed(rs)) ==> ListedInv(init, t, c, rs))
  {
    assert s.log[..|s.log|] == s.log;
    hide Listing, Fold, TermsOf, DistinctBy, LogEntryInv, Asks;
  }

  lemma UpdateResult(s: State, c: CallId, fate: Cloud.Fate)
    requires Enabled(s, Update(c, fate))
    ensures var t := Next(s, Update(c, fate));
            && (HasResult(t.calls[c].stage, Success) ==> c in CallsOf(t.log))
            && (forall rs :: !HasResult(t.calls[c].stage, Listed(rs)))
  {
    hide Rewrite, CallsOf;
    if !fate.LostBefore? {
      TermsSnoc(s.log, Effect(c, s.calls[c].stage.term));
    }
  }

  lemma UnlockResult(init: seq<StaticRoute>, s: State, c: CallId)
    requires ResultInv(init, s) && Enabled(s, Unlock(c))
    ensures var t := Next(s, Unlock(c));
            && (HasResult(t.calls[c].stage, Success) ==> c in CallsOf(t.log))
            && (forall rs :: HasResult(t.calls[c].stage, Listed(rs)) ==> ListedInv(init, t, c, rs))
  {
    hide CallsOf, Listing, Fold, TermsOf;
    var t := Next(s, Unlock(c));
    assert t.log == s.log;
    forall rs | HasResult(t.calls[c].stage, Listed(rs)) ensures ListedInv(init, t, c, rs) {
      assert HasResult(s.calls[c].stage, Listed(rs));
      assert ListedInv(init, s, c, rs);
    }
  }

  lemma NoListing(s: State, e: Event)
    requires Enabled(s, e) && !e.Get? && !e.Update? && !e.Unlock?
    ensures var stage := Next(s, e).calls[e.call].stage;
            !HasResult(stage, Success) && forall rs :: !HasResult(stage, Listed(rs))
  {
    hide NextHopIn;
  }

  lemma ResultKept(init: seq<StaticRoute>, s: State, e: Event)
    requires TableInv(init, s) && LogInv(s) && ResultInv(init, s) && Enabled(s, e)
    ensures ResultInv(init, Next(s, e))
  {
    var t := Next(s, e);
    OwnResult(init, s, e);
    hide Rewrite, Listing, NextHopIn, AfterGet, ListedInv, CallsOf, LogInv;
    forall c | c in t.calls && c != e.call ensures
        && (HasResult(t.calls[c].stage, Success) ==> c in CallsOf(t.log))
        && (forall rs :: HasResult(t.calls[c].stage, Listed(rs)) ==> ListedInv(init, t, c, rs))
    {
      assert c in s.calls && t.calls[c] == s.calls[c];
      if HasResult(s.calls[c].stage, Success) { LoggedStays(s, e, c); }
      forall rs | HasResult(t.calls[c].stage, Listed(rs))
        ensures ListedInv(init, t, c, rs)
      {
        ListedKept(init, s, e, c, rs);
      }
    }
  }

  lemma EffectiveSnoc(order: seq<CallId>, c: CallId, log: seq<Effect>)
    ensures Effective(order + [c], log) == Effective(order, log) + if c in CallsOf(log) then [c] else []
  {
    FilterAppend(order, [c], x => x in CallsOf(log));
    if c in CallsOf(log) {
      FilterAll([c], x => x in CallsOf(log));
    } else {
      FilterNone([c], x => x in CallsOf(log));
    }
  }

  lemma EffectiveOutside(order: seq<CallId>, log: seq<Effect>, x: Effect)
    requires x.call !in order
    ensures Effective(order, log + [x]) == Effective(order, log)
  {
    TermsSnoc(log, x);
    FilterSame(order, c => c in CallsOf(log + [x]), c => c in CallsOf(log));
  }

  /** The holder, who locked last, writes: the new effect comes last in lock order, too. */
  lemma WriterIsLast(order: seq<CallId>, log: seq<Effect>, x: Effect)
    requires Distinct(order) && order != [] && order[|order| - 1] == x.call && x.call !in CallsOf(log)
    requires CallsOf(log) == Effective(order, log)
    ensures CallsOf(log + [x]) == Effective(order, log + [x])
  {
    var front := order[..|order| - 1];
    assert order == front + [x.call];
    EffectiveSnoc(front, x.call, log);
    EffectiveSnoc(front, x.call, log + [x]);
    EffectiveOutside(front, log, x);
    TermsSnoc(log, x);
  }

  lemma OrderOnLock(s: State, c: CallId)
    requires LogInv(s) && OrderInv(s) && c in s.calls && s.calls[c].stage.Arrived? && s.holder.None?
    ensures OrderInv(Next(s, TryLock(c)))
  {
    if c in CallsOf(s.log) { LoggedHasResult(s, c); }
    EffectiveSnoc(s.order, c, s.log);
    hide Effective, CallsOf, LogInv;
    assert c !in s.order;
  }

  lemma OrderOnWrite(s: State, c: CallId, table: seq<StaticRoute>, fate: Cloud.Fate)
    requires LockInv(s) && LogInv(s) && OrderInv(s) && c in s.calls && s.calls[c].stage.HasTerm?
    ensures OrderInv(Written(s, c, table, fate))
  {
    if c in CallsOf(s.log) { LoggedHasResult(s, c); }
    WriterIsLast(s.order, s.log, Effect(c, s.calls[c].stage.term));
    hide Effective, CallsOf, LogInv;
  }

  lemma OrderKept(s: State, e: Event)
    requires LockInv(s) && LogInv(s) && OrderInv(s) && Enabled(s, e)
    ensures OrderInv(Next(s, e))
  {
    hide Effective, CallsOf, LogInv, Rewrite, Listing, NextHopIn;
    if e.TryLock? && s.holder.None? {
      OrderOnLock(s, e.call);
    } else if e.Update? && !e.fate.LostBefore? {
      OrderOnWrite(s, e.call, Rewrite(s.calls[e.call].stage.snapshot, [s.calls[e.call].stage.term]), e.fate);
    } else {
      OrderOtherwise(s, e);
    }
    hide *;
  }

  lemma OrderOtherwise(s: State, e: Event)
    requires LockInv(s) && OrderInv(s) && Enabled(s, e)
    requires !(e.TryLock? && s.holder.None?) && !(e.Update? && !e.fate.LostBefore?)
    ensures OrderInv(Next(s, e))
  {
    hide Effective, CallsOf, Rewrite, Listing, NextHopIn, Distinct;
  }

  lemma StepKeepsInv(init: seq<StaticRoute>, s: State, e: Event)
    requires Inv(init, s) && Enabled(s, e)
    ensures Inv(init, Next(s, e))
  {
    LockKept(s, e);
    ReadersKept(s, e);
    SnapshotKept(s, e);
    TableKept(init, s, e);
    LogKept(s, e);
    ResultKept(init, s, e);
    OrderKept(s, e);
    hide *;
  }

  lemma StartInv(init: seq<StaticRoute>)
    ensures Inv(init, Start(init))
  {
  }

  lemma {:induction false} RunKeepsInv(init: seq<StaticRoute>, es: seq<Event>)
    requires IsRun(init, es)
    ensures Inv(init, EndOf(init, es))
    decreases |es|
  {
    hide Inv;
    if es == [] {
      StartInv(init);
    } else {
      RunKeepsInv(init, es[..|es| - 1]);
      StepKeepsInv(init, EndOf(init, es[..|es| - 1]), es[|es| - 1]);
    }
  }
}
