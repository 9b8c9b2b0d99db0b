/** The algebra of rewrites, and the map from nodes to routes that the table stands for
    (pkg/cloudprovider/yandex/routes.go:44-62, 161-220). */
module RouteMap {
  import opened Seqs
  import opened Routes
  import opened RouteLaws

  // Repetition and undoing

  lemma FirstIsOnly(terms: seq<Term>, t: Term)
    requires DistinctBy(terms, TermNode) && t in terms
    ensures FirstFor(terms, t.nodeName) == Some(t)
  {
    var f := FirstFor(terms, t.nodeName).value;
    var i, j :| 0 <= i < |terms| && 0 <= j < |terms| && terms[i] == t && terms[j] == f;
    assert TermNode(terms[i]) == TermNode(terms[j]);
  }

  lemma AdditionsMembers(terms: seq<Term>, node: string, r: StaticRoute)
    ensures r in AdditionsFor(terms, node) <==>
            exists t :: t in terms && t.termType.AddOrUpdate? && t.nodeName == node && r == NewRoute(t)
  {
    if terms != [] {
      AdditionsMembers(terms[..|terms| - 1], node, r);
      assert terms == terms[..|terms| - 1] + [terms[|terms| - 1]];
    }
  }

  lemma AllPointedFixed(rs: seq<StaticRoute>, t: Term)
    ensures AllPointed(rs, t) == rs <==> forall r :: r in rs ==> Pointed(t, r) == r
  {
    if AllPointed(rs, t) == rs {
      forall i | 0 <= i < |rs| ensures Pointed(t, rs[i]) == rs[i] {
        assert AllPointed(rs, t)[i] == Pointed(t, rs[i]);
      }
    }
  }

  /** Another addition for the node disagrees with its first one. */
  ghost predicate AdditionsDisagree(terms: seq<Term>, node: string) {
    IsUpdate(terms, node)
    && var f := FirstFor(terms, node).value;
       exists t :: t in terms && t.termType.AddOrUpdate? && t.nodeName == node
                   && (t.destinationCidr != f.destinationCidr || t.nextHop != f.nextHop)
  }

  /** Whatever the terms, applying them again changes the routes of a node exactly if the node had none
      and its additions disagree. */
  lemma RepeatStableIff(rs: seq<StaticRoute>, terms: seq<Term>, node: string)
    ensures var once := Rewrite(rs, terms);
            RoutesFor(Rewrite(once, terms), node) == RoutesFor(once, node)
            <==> !(RoutesFor(rs, node) == [] && AdditionsDisagree(terms, node))
  {
    var once := Rewrite(rs, terms);
    NodeByNode(rs, terms, node);
    NodeByNode(once, terms, node);
    hide Rewrite, RoutesFor, Images, Appended, AdditionsFor;
    if IsUpdate(terms, node) {
      var f := FirstFor(terms, node).value;
      AllPointedFixed(RoutesFor(once, node), f);
      if RoutesFor(rs, node) == [] {
        AdditionsStableIff(terms, node);
        AdditionsMembers(terms, node, NewRoute(f));
      }
    }
  }

  lemma AdditionsStableIff(terms: seq<Term>, node: string)
    requires IsUpdate(terms, node)
    ensures (forall r :: r in AdditionsFor(terms, node) ==> Pointed(FirstFor(terms, node).value, r) == r)
       <==> !AdditionsDisagree(terms, node)
  {
    if AdditionsDisagree(terms, node) {
      var f := FirstFor(terms, node).value;
      var t :| t in terms && t.termType.AddOrUpdate? && t.nodeName == node
               && (t.destinationCidr != f.destinationCidr || t.nextHop != f.nextHop);
      AdditionsMembers(terms, node, NewRoute(t));
    } else {
      forall r | r in AdditionsFor(terms, node) ensures Pointed(FirstFor(terms, node).value, r) == r {
        AdditionsMembers(terms, node, r);
      }
    }
  }

  lemma RewrittenIsFixed(rs: seq<StaticRoute>, terms: seq<Term>, r: StaticRoute)
    requires DistinctBy(terms, TermNode) && r in Rewrite(rs, terms)
    ensures Image(r, terms) == [r]
  {
    if IsLabelled(r) && FirstFor(terms, r.labels[NODE_ROLE_LABEL]).Some? {
      var node := r.labels[NODE_ROLE_LABEL];
      var f := FirstFor(terms, node).value;
      NodeByNode(rs, terms, node);
      RoutesForMembers(Rewrite(rs, terms), node, r);
      AdditionsMembers(terms, node, r);
      if t :| t in terms && t.termType.AddOrUpdate? && t.nodeName == node && r == NewRoute(t) {
        FirstIsOnly(terms, t);
      }
    }
  }

  lemma {:induction false} NothingAppended(terms: seq<Term>, updated: set<string>)
    requires forall t :: t in terms && t.termType.AddOrUpdate? ==> t.nodeName in updated
    ensures Appended(terms, updated) == []
  {
    if terms != [] {
      NothingAppended(terms[..|terms| - 1], updated);
    }
  }

  /** With each node named once, rewriting again changes nothing, not even the order. */
  lemma Idempotent(rs: seq<StaticRoute>, terms: seq<Term>)
    requires DistinctBy(terms, TermNode)
    ensures Rewrite(Rewrite(rs, terms), terms) == Rewrite(rs, terms)
  {
    var once := Rewrite(rs, terms);
    forall r | r in once ensures Image(r, terms) == [r] {
      RewrittenIsFixed(rs, terms, r);
    }
    ImagesFixed(once, terms);
    forall t | t in terms && t.termType.AddOrUpdate? ensures t.nodeName in Updated(once, terms) {
      FirstIsOnly(terms, t);
      NodeByNode(rs, terms, t.nodeName);
      AdditionsMembers(terms, t.nodeName, NewRoute(t));
      UpdatedIff(once, terms, t.nodeName);
    }
    NothingAppended(terms, Updated(once, terms));
  }

  lemma {:induction false} RemovalImages(rs: seq<StaticRoute>, t: Term)
    requires t.termType.Remove?
    ensures Images(rs, [t]) == Bystanders(rs, [t])
  {
    if rs != [] {
      var front, last := rs[..|rs| - 1], rs[|rs| - 1];
      RemovalImages(front, t);
      assert rs == front + [last];
      BystandersAppend(front, [last], [t]);
      BystandersOne(last, [t]);
      assert t in [t];
      if IsLabelled(last) { FirstForOne(t, last.labels[NODE_ROLE_LABEL]); }
      hide Bystanders;
    }
  }

  /** A removal leaves exactly the routes that it does not concern. */
  lemma RemovalLeavesBystanders(rs: seq<StaticRoute>, t: Term)
    requires t.termType.Remove?
    ensures Rewrite(rs, [t]) == Bystanders(rs, [t])
  {
    NothingAppended([t], Updated(rs, [t]));
    RemovalImages(rs, t);
  }

  lemma BystandersOne(r: StaticRoute, terms: seq<Term>)
    ensures Bystanders([r], terms) == if Concerns(terms, r) then [] else [r]
  {
    if Concerns(terms, r) {
      FilterNone([r], r => !Concerns(terms, r));
    } else {
      FilterAll([r], r => !Concerns(terms, r));
    }
  }

  /** Removing a node's routes undoes adding or updating them, up to removing what was there before. */
  lemma RemovalUndoes(rs: seq<StaticRoute>, add: Term, remove: Term)
    requires add.termType.AddOrUpdate? && remove.termType.Remove? && add.nodeName == remove.nodeName
    ensures Rewrite(Rewrite(rs, [add]), [remove]) == Rewrite(rs, [remove])
    ensures RoutesFor(rs, add.nodeName) == [] ==> Rewrite(rs, [remove]) == rs
  {
    RemovalLeavesBystanders(Rewrite(rs, [add]), remove);
    RemovalLeavesBystanders(rs, remove);
    BystandersKept(rs, [add]);
    SameConcern(rs, add, remove);
    SameConcern(Rewrite(rs, [add]), add, remove);
    if RoutesFor(rs, add.nodeName) == [] {
      forall r | r in rs ensures !Concerns([remove], r) {
        RoutesForMembers(rs, add.nodeName, r);
      }
      FilterAll(rs, r => !Concerns([remove], r));
    }
  }

  lemma SameConcern(rs: seq<StaticRoute>, t: Term, u: Term)
    requires t.nodeName == u.nodeName
    ensures Bystanders(rs, [t]) == Bystanders(rs, [u])
  {
    forall r ensures Concerns([t], r) <==> Concerns([u], r) {
      assert t in [t] && u in [u];
    }
    FilterSame(rs, r => !Concerns([t], r), r => !Concerns([u], r));
  }

  /** One addition leaves the node as many routes as it had, but at least one, all pointing the same way. */
  lemma AdditionCounts(rs: seq<StaticRoute>, t: Term)
    requires t.termType.AddOrUpdate?
    ensures var before, after := RoutesFor(rs, t.nodeName), RoutesFor(Rewrite(rs, [t]), t.nodeName);
            && |after| == (if |before| > 1 then |before| else 1)
            && forall r :: r in after ==> r.destination == t.destinationCidr && r.nextHop == NextHopAddress(t.nextHop)
  {
    NodeByNode(rs, [t], t.nodeName);
    FirstForOne(t, t.nodeName);
    AdditionsForOne(t, t.nodeName);
  }

  lemma AdditionsForOne(t: Term, node: string)
    ensures AdditionsFor([t], node) == if t.termType.AddOrUpdate? && t.nodeName == node then [NewRoute(t)] else []
  {
    assert [t][..0] == [];
    assert AdditionsFor([], node) == [];
  }

  // The same in plain fields

  /** A route with this node's name under the label that the controller gives its routes. */
  ghost predicate IsNodeRoute(r: StaticRoute, node: string) {
    "yandex.cpi.flant.com/node-role" in r.labels && r.labels["yandex.cpi.flant.com/node-role"] == node
  }

  /** What an addition makes of a route that is there. */
  ghost predicate IsPointed(x: StaticRoute, r: StaticRoute, t: Term) {
    if IsNodeRoute(r, t.nodeName) then
      x.labels == r.labels && x.destination == t.destinationCidr && x.nextHop == NextHopAddress(t.nextHop)
    else x == r
  }

  lemma ImageInFields(r: StaticRoute, t: Term, x: StaticRoute)
    requires t.termType.AddOrUpdate? && [x] == Image(r, [t])
    ensures IsPointed(x, r, t)
  {
    if IsLabelled(r) { FirstForOne(t, r.labels[NODE_ROLE_LABEL]); }
    assert [x][0] == x;
  }

  /** An addition points the node's routes elsewhere, each in its place and with its labels, or else appends one
      labelled route; all other routes stay as and where they are. */
  lemma AdditionInFields(rs: seq<StaticRoute>, t: Term)
    requires t.termType.AddOrUpdate?
    ensures |rs| <= |Rewrite(rs, [t])| && forall i :: 0 <= i < |rs| ==> IsPointed(Rewrite(rs, [t])[i], rs[i], t)
    ensures Rewrite(rs, [t])[|rs|..] ==
            if exists r :: r in rs && IsNodeRoute(r, t.nodeName) then []
            else [StaticRoute(t.destinationCidr, NextHopAddress(t.nextHop),
                              map["yandex.cpi.flant.com/node-role" := t.nodeName])]
  {
    PositionsKept(rs, [t]);
    AppendedOne(t, Updated(rs, [t]));
    UpdatedIffNodeRoute(rs, t);
    hide Images, Updated, FirstFor, Appended, Image, IsPointed, IsNodeRoute;
    forall i | 0 <= i < |rs| ensures IsPointed(Rewrite(rs, [t])[i], rs[i], t) {
      ImageInFields(rs[i], t, Images(rs, [t])[i]);
    }
  }

  lemma AppendedOne(t: Term, updated: set<string>)
    ensures Appended([t], updated) ==
            if t.termType.AddOrUpdate? && t.nodeName !in updated then [NewRoute(t)] else []
  {
    assert [t][..0] == [];
    assert Appended([], updated) == [];
  }

  lemma UpdatedIffNodeRoute(rs: seq<StaticRoute>, t: Term)
    requires t.termType.AddOrUpdate?
    ensures t.nodeName in Updated(rs, [t]) <==> exists r :: r in rs && IsNodeRoute(r, t.nodeName)
  {
    FirstForOne(t, t.nodeName);
    if r :| r in rs && IsNodeRoute(r, t.nodeName) {
      assert IsLabelled(r) && IsUpdate([t], r.labels[NODE_ROLE_LABEL]);
    }
  }

  /** A removal drops exactly the node's routes. */
  lemma RemovalInFields(rs: seq<StaticRoute>, t: Term)
    requires t.termType.Remove?
    ensures Rewrite(rs, [t]) == Filter(rs, r => !IsNodeRoute(r, t.nodeName))
  {
    RemovalLeavesBystanders(rs, t);
    forall r ensures Concerns([t], r) <==> IsNodeRoute(r, t.nodeName) { assert t in [t]; }
    FilterSame(rs, r => !Concerns([t], r), r => !IsNodeRoute(r, t.nodeName));
  }

  // The map behind the table

  datatype Entry = Entry(cidr: string, nextHop: NextHop)

  ghost predicate OnePerNode(rs: seq<StaticRoute>) {
    forall n :: |RoutesFor(rs, n)| <= 1
  }

  ghost function NodesOf(rs: seq<StaticRoute>): set<string> {
    set r | r in rs && IsLabelled(r) :: r.labels[NODE_ROLE_LABEL]
  }

  lemma NodesOfIff(rs: seq<StaticRoute>, node: string)
    ensures node in NodesOf(rs) <==> RoutesFor(rs, node) != []
  {
    if r :| r in rs && IsFor(r, node) { RoutesForMembers(rs, node, r); }
    if RoutesFor(rs, node) != [] { RoutesForMembers(rs, node, RoutesFor(rs, node)[0]); }
  }

  ghost function EntryFor(rs: seq<StaticRoute>, node: string): Entry
    requires RoutesFor(rs, node) != []
  {
    Entry(RoutesFor(rs, node)[0].destination, RoutesFor(rs, node)[0].nextHop)
  }

  ghost function MapOf(rs: seq<StaticRoute>): map<string, Entry> {
    map n | n in NodesOf(rs) && RoutesFor(rs, n) != [] :: EntryFor(rs, n)
  }

  ghost function Apply(m: map<string, Entry>, t: Term): map<string, Entry> {
    if t.termType.Remove? then m - {t.nodeName}
    else m[t.nodeName := Entry(t.destinationCidr, NextHopAddress(t.nextHop))]
  }

  ghost function ApplyAll(m: map<string, Entry>, terms: seq<Term>): map<string, Entry> {
    if terms == [] then m else Apply(ApplyAll(m, terms[..|terms| - 1]), terms[|terms| - 1])
  }

  /** What one term makes of the routes of any node. */
  lemma OneTerm(rs: seq<StaticRoute>, t: Term, node: string)
    ensures RoutesFor(Rewrite(rs, [t]), node) ==
            if t.nodeName != node then RoutesFor(rs, node)
            else if t.termType.Remove? then []
            else if RoutesFor(rs, node) == [] then [NewRoute(t)]
            else AllPointed(RoutesFor(rs, node), t)
  {
    NodeByNode(rs, [t], node);
    FirstForOne(t, node);
    AdditionsForOne(t, node);
  }

  lemma RewriteRefinesMap(rs: seq<StaticRoute>, t: Term)
    ensures MapOf(Rewrite(rs, [t])) == Apply(MapOf(rs), t)
    ensures OnePerNode(rs) ==> OnePerNode(Rewrite(rs, [t]))
  {
    var after := Rewrite(rs, [t]);
    hide Rewrite, RoutesFor, NodesOf;
    forall n ensures n in MapOf(after) <==> n in Apply(MapOf(rs), t) {
      OneTerm(rs, t, n);
      NodesOfIff(rs, n);
      NodesOfIff(after, n);
    }
    forall n | n in MapOf(after) ensures MapOf(after)[n] == Apply(MapOf(rs), t)[n] {
      OneTerm(rs, t, n);
      NodesOfIff(rs, n);
    }
    if OnePerNode(rs) {
      forall n ensures |RoutesFor(after, n)| <= 1 { OneTerm(rs, t, n); }
    }
  }

  /** Any number of creations and deletions act on the table as they act on the map. */
  lemma {:induction false} FoldRefinesMap(rs: seq<StaticRoute>, terms: seq<Term>)
    ensures MapOf(Fold(rs, terms)) == ApplyAll(MapOf(rs), terms)
    ensures OnePerNode(rs) ==> OnePerNode(Fold(rs, terms))
  {
    if terms != [] {
      FoldRefinesMap(rs, terms[..|terms| - 1]);
      RewriteRefinesMap(Fold(rs, terms[..|terms| - 1]), terms[|terms| - 1]);
    }
  }

  // When one rewrite is as good as many

  lemma AdditionsSnoc(terms: seq<Term>, t: Term, node: string)
    ensures AdditionsFor(terms + [t], node) ==
            AdditionsFor(terms, node) + if t.termType.AddOrUpdate? && t.nodeName == node then [NewRoute(t)] else []
  {
    assert (terms + [t])[..|terms + [t]| - 1] == terms;
  }

  lemma {:induction false} TwoAdditions(terms: seq<Term>, i: nat, j: nat)
    requires i < j < |terms| && terms[i].nodeName == terms[j].nodeName
    requires terms[i].termType.AddOrUpdate? && terms[j].termType.AddOrUpdate?
    ensures |AdditionsFor(terms, terms[i].nodeName)| >= 2
  {
    var front, last := terms[..|terms| - 1], terms[|terms| - 1];
    assert terms == front + [last];
    AdditionsSnoc(front, last, terms[i].nodeName);
    if j < |terms| - 1 {
      TwoAdditions(front, i, j);
    } else {
      assert front[i] == terms[i] && terms[i] in front;
      AdditionsMembers(front, terms[i].nodeName, NewRoute(terms[i]));
    }
    hide *;
  }

  /** A node whose last say is a removal has no route after a fold. */
  lemma {:induction false} RemovedStaysAway(rs: seq<StaticRoute>, terms: seq<Term>, j: nat)
    requires j < |terms| && terms[j].termType.Remove?
    requires forall i :: j < i < |terms| && terms[i].nodeName == terms[j].nodeName ==> terms[i].termType.Remove?
    ensures RoutesFor(Fold(rs, terms), terms[j].nodeName) == []
    decreases |terms|
  {
    hide *;
    var front, last := terms[..|terms| - 1], terms[|terms| - 1];
    assert terms == front + [last];
    FoldSnoc(rs, front, last);
    OneTerm(Fold(rs, front), last, terms[j].nodeName);
    if j < |terms| - 1 {
      assert forall i :: 0 <= i < |front| ==> front[i] == terms[i];
      RemovedStaysAway(rs, front, j);
    }
  }

  lemma EmptyTable()
    ensures OnePerNode([]) && forall node :: RoutesFor([], node) == []
  {
  }

  /** An addition followed by another term for its node: on the empty table the two ways differ. */
  lemma RepeatedAdditionDiffers(terms: seq<Term>, i: nat, j: nat)
    requires i < j < |terms| && terms[i].nodeName == terms[j].nodeName && terms[i].termType.AddOrUpdate?
    ensures Rewrite([], terms) != Fold([], terms)
  {
    var node := terms[i].nodeName;
    EmptyTable();
    NodeByNode([], terms, node);
    assert terms[i] in terms;
    AdditionsMembers(terms, node, NewRoute(terms[i]));
    assert RoutesFor(Rewrite([], terms), node) == AdditionsFor(terms, node);
    hide *;
    if k :| i < k < |terms| && terms[k].nodeName == node && terms[k].termType.AddOrUpdate? {
      TwoAdditions(terms, i, k);
      FoldRefinesMap([], terms);
      AtMostOneRoute(Fold([], terms), node);
    } else {
      RemovedStaysAway([], terms, j);
    }
  }

  lemma AtMostOneRoute(rs: seq<StaticRoute>, node: string)
    requires OnePerNode(rs)
    ensures |RoutesFor(rs, node)| <= 1
  {
  }

  /** One rewrite with all terms equals rewriting term by term, on every table, exactly if the terms of
      each node but for the last one are removals. */
  lemma BatchEqualsFoldIff(terms: seq<Term>)
    ensures (forall rs :: Rewrite(rs, terms) == Fold(rs, terms)) <==> RepeatsRemovalsOnly(terms)
  {
    if RepeatsRemovalsOnly(terms) {
      forall rs ensures Rewrite(rs, terms) == Fold(rs, terms) { BatchIsFold(rs, terms); }
    } else {
      var i, j :| 0 <= i < j < |terms| && terms[i].nodeName == terms[j].nodeName && !terms[i].termType.Remove?;
      RepeatedAdditionDiffers(terms, i, j);
    }
  }

  /** In particular for terms that name each node once. */
  lemma BatchEqualsFold(rs: seq<StaticRoute>, terms: seq<Term>)
    requires DistinctBy(terms, TermNode)
    ensures Rewrite(rs, terms) == Fold(rs, terms)
  {
    assert RepeatsRemovalsOnly(terms) by {
      forall i, j | 0 <= i < j < |terms| ensures terms[i].nodeName != terms[j].nodeName {
        assert TermNode(terms[i]) != TermNode(terms[j]);
      }
    }
    BatchEqualsFoldIff(terms);
  }

  /** Two additions for one node without a route: at once they leave two routes, one after the other
      they leave one. */
  lemma RepeatedAdditionsPileUp(rs: seq<StaticRoute>, t: Term, u: Term)
    requires t.termType.AddOrUpdate? && u.termType.AddOrUpdate? && t.nodeName == u.nodeName
    requires RoutesFor(rs, t.nodeName) == []
    ensures RoutesFor(Rewrite(rs, [t, u]), t.nodeName) == [NewRoute(t), NewRoute(u)]
    ensures RoutesFor(Fold(rs, [t, u]), t.nodeName) == [Pointed(u, NewRoute(t))]
  {
    hide *;
    AdditionsAtOnce(rs, t, u);
    AdditionsInTurn(rs, t, u);
  }

  lemma AdditionsAtOnce(rs: seq<StaticRoute>, t: Term, u: Term)
    requires t.termType.AddOrUpdate? && u.termType.AddOrUpdate? && t.nodeName == u.nodeName
    requires RoutesFor(rs, t.nodeName) == []
    ensures RoutesFor(Rewrite(rs, [t, u]), t.nodeName) == [NewRoute(t), NewRoute(u)]
  {
    hide *;
    var n := t.nodeName;
    assert [t, u] == [t] + [u];
    NodeByNode(rs, [t, u], n);
    FirstForSnoc([t], u, n);
    FirstForOne(t, n);
    AdditionsOnNoRoute(rs, [t, u], n);
    AdditionsForOne(t, n);
    AdditionsSnoc([t], u, n);
  }

  lemma AdditionsInTurn(rs: seq<StaticRoute>, t: Term, u: Term)
    requires t.termType.AddOrUpdate? && u.termType.AddOrUpdate? && t.nodeName == u.nodeName
    requires RoutesFor(rs, t.nodeName) == []
    ensures RoutesFor(Fold(rs, [t, u]), t.nodeName) == [Pointed(u, NewRoute(t))]
  {
    hide *;
    var n := t.nodeName;
    FoldOfTwo(rs, t, u);
    OneTerm(rs, t, n);
    OneTerm(Rewrite(rs, [t]), u, n);
    AllPointedAppend([], [NewRoute(t)], u);
  }

  lemma FoldOfTwo(rs: seq<StaticRoute>, t: Term, u: Term)
    ensures Fold(rs, [t, u]) == Rewrite(Rewrite(rs, [t]), [u])
  {
    assert [t, u] == [t] + [u] && [t] == [] + [t] && Fold(rs, []) == rs;
    hide *;
    FoldSnoc(rs, [t], u);
    FoldSnoc(rs, [], t);
  }

  lemma AdditionsOnNoRoute(rs: seq<StaticRoute>, terms: seq<Term>, node: string)
    requires RoutesFor(rs, node) == [] && FirstFor(terms, node).Some?
    ensures RoutesAfter(rs, terms, node) == AdditionsFor(terms, node)
  {
  }

  // Listing

  datatype NodeRoute = NodeRoute(name: string, targetNode: string, destinationCidr: string)

  function NodeRouteFor(r: StaticRoute): NodeRoute
    requires IsLabelled(r)
  {
    NodeRoute(r.labels[NODE_ROLE_LABEL], r.labels[NODE_ROLE_LABEL], r.destination)
  }

  function Listing(rs: seq<StaticRoute>): seq<NodeRoute> {
    if rs == [] then [] else
    Listing(rs[..|rs| - 1]) + if IsLabelled(rs[|rs| - 1]) then [NodeRouteFor(rs[|rs| - 1])] else []
  }

  method NodeRoutes(staticRoutes: seq<StaticRoute>) returns (cpiRoutes: seq<NodeRoute>)
    ensures cpiRoutes == Listing(staticRoutes)
  {
    cpiRoutes := [];
    for i := 0 to |staticRoutes|
      invariant cpiRoutes == Listing(staticRoutes[..i])
    {
      var staticRoute := staticRoutes[i];
      assert staticRoutes[..i + 1][..i] == staticRoutes[..i];
      if NODE_ROLE_LABEL !in staticRoute.labels {
        continue;
      }
      var nodeName := staticRoute.labels[NODE_ROLE_LABEL];
      cpiRoutes := cpiRoutes + [NodeRoute(nodeName, nodeName, staticRoute.destination)];
    }
    assert staticRoutes[..|staticRoutes|] == staticRoutes;
  }

  lemma ListingMembers(rs: seq<StaticRoute>, x: NodeRoute)
    ensures x in Listing(rs) <==> exists r :: r in rs && IsLabelled(r) && x == NodeRouteFor(r)
  {
    if rs != [] {
      assert rs == rs[..|rs| - 1] + [rs[|rs| - 1]];
      ListingMembers(rs[..|rs| - 1], x);
    }
  }

  function NodeOf(x: NodeRoute): string { x.targetNode }

  /** A listing names no node twice exactly if no node has two routes. */
  lemma {:induction false} ListingDistinctIff(rs: seq<StaticRoute>)
    ensures DistinctBy(Listing(rs), NodeOf) <==> OnePerNode(rs)
  {
    if rs == [] {
      assert forall n :: RoutesFor(rs, n) == [];
    } else {
      var front, last := rs[..|rs| - 1], rs[|rs| - 1];
      ListingDistinctIff(front);
      OneMoreRoute(front, last);
      assert rs == front + [last] && Listing(front) + [] == Listing(front);
      if IsLabelled(last) {
        LastIsListedTwiceIff(front, last);
        DistinctSnoc(Listing(front), NodeRouteFor(last));
      }
      hide OnePerNode, DistinctBy;
    }
  }

  lemma DistinctSnoc(xs: seq<NodeRoute>, x: NodeRoute)
    ensures DistinctBy(xs + [x], NodeOf) <==> DistinctBy(xs, NodeOf) && !exists y :: y in xs && NodeOf(y) == NodeOf(x)
  {
    var ys := xs + [x];
    if DistinctBy(ys, NodeOf) {
      assert forall i :: 0 <= i < |xs| ==> ys[i] == xs[i];
      forall y | y in xs ensures NodeOf(y) != NodeOf(x) {
        var i :| 0 <= i < |xs| && xs[i] == y;
        assert NodeOf(ys[i]) != NodeOf(ys[|xs|]);
      }
    }
  }

  lemma OneMoreRoute(front: seq<StaticRoute>, last: StaticRoute)
    ensures OnePerNode(front + [last]) <==>
            OnePerNode(front) && (IsLabelled(last) ==> RoutesFor(front, last.labels[NODE_ROLE_LABEL]) == [])
  {
    forall n ensures RoutesFor(front + [last], n) == RoutesFor(front, n) + if IsFor(last, n) then [last] else [] {
      RoutesForAppend(front, [last], n);
      RoutesForOne(last, n);
    }
    hide RoutesFor;
    if IsLabelled(last) {
      assert |RoutesFor(front + [last], last.labels[NODE_ROLE_LABEL])| ==
        |RoutesFor(front, last.labels[NODE_ROLE_LABEL])| + 1;
    }
  }

  lemma LastIsListedTwiceIff(front: seq<StaticRoute>, last: StaticRoute)
    requires IsLabelled(last)
    ensures (exists x :: x in Listing(front) && NodeOf(x) == last.labels[NODE_ROLE_LABEL])
       <==> RoutesFor(front, last.labels[NODE_ROLE_LABEL]) != []
  {
    var n := last.labels[NODE_ROLE_LABEL];
    if x :| x in Listing(front) && NodeOf(x) == n {
      ListingMembers(front, x);
      var r :| r in front && IsLabelled(r) && x == NodeRouteFor(r);
      RoutesForMembers(front, n, r);
    }
    if RoutesFor(front, n) != [] {
      var r := RoutesFor(front, n)[0];
      RoutesForMembers(front, n, r);
      ListingMembers(front, NodeRouteFor(r));
    }
  }

  /** With at most one route a node, the listing is the map, entry by entry. */
  lemma ListingIsMap(rs: seq<StaticRoute>)
    requires OnePerNode(rs)
    ensures DistinctBy(Listing(rs), NodeOf)
    ensures forall x :: x in Listing(rs) <==>
              x.name == x.targetNode && x.targetNode in MapOf(rs) && x.destinationCidr == MapOf(rs)[x.targetNode].cidr
  {
    ListingDistinctIff(rs);
    forall x ensures x in Listing(rs) <==>
              x.name == x.targetNode && x.targetNode in MapOf(rs) && x.destinationCidr == MapOf(rs)[x.targetNode].cidr
    {
      ListedIff(rs, x);
    }
  }

  lemma ListedIff(rs: seq<StaticRoute>, x: NodeRoute)
    requires OnePerNode(rs)
    ensures x in Listing(rs) <==>
            x.name == x.targetNode && x.targetNode in MapOf(rs) && x.destinationCidr == MapOf(rs)[x.targetNode].cidr
  {
    var n := x.targetNode;
    ListingMembers(rs, x);
    NodesOfIff(rs, n);
    if RoutesFor(rs, n) != [] {
      var first := RoutesFor(rs, n)[0];
      RoutesForMembers(rs, n, first);
      forall r | r in rs && IsFor(r, n) ensures r == first {
        RoutesForMembers(rs, n, r);
      }
    }
    if r :| r in rs && IsLabelled(r) && x == NodeRouteFor(r) {
      RoutesForMembers(rs, n, r);
    }
  }
}
