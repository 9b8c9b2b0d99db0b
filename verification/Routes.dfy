/** The route table as a sequence of static routes, and its rewriting (pkg/cloudprovider/yandex/routes.go:147-220). */
module Routes {
  import opened Seqs

  const NODE_ROLE_LABEL := "yandex.cpi.flant.com/node-role"

  datatype NextHop = NextHopAddress(address: string) | NextHopGateway(gatewayId: string)
  datatype StaticRoute = StaticRoute(destination: string, nextHop: NextHop, labels: map<string, string>)

  datatype TermType = AddOrUpdate | Remove
  datatype Term = Term(termType: TermType, nodeName: string, destinationCidr: string, nextHop: string)

  function TermNode(t: Term): string { t.nodeName }

  predicate IsLabelled(r: StaticRoute) { NODE_ROLE_LABEL in r.labels }

  predicate IsFor(r: StaticRoute, node: string) { IsLabelled(r) && r.labels[NODE_ROLE_LABEL] == node }

  // What a rewrite means

  function FirstFor(terms: seq<Term>, node: string): (f: Option<Term>)
    ensures f.Some? ==> f.value in terms && f.value.nodeName == node
    ensures f.None? <==> forall t :: t in terms ==> t.nodeName != node
  {
    if terms == [] then None
    else if terms[0].nodeName == node then Some(terms[0])
    else
      assert terms == [terms[0]] + terms[1..];
      FirstFor(terms[1..], node)
  }

  /** The route with destination and next hop of a term and labels of its own. */
  function Pointed(t: Term, r: StaticRoute): StaticRoute {
    StaticRoute(t.destinationCidr, NextHopAddress(t.nextHop), r.labels)
  }

  function NewRoute(t: Term): StaticRoute {
    StaticRoute(t.destinationCidr, NextHopAddress(t.nextHop), map[NODE_ROLE_LABEL := t.nodeName])
  }

  /** What becomes of one route: the first term for its node decides. */
  function Image(r: StaticRoute, terms: seq<Term>): seq<StaticRoute> {
    if !IsLabelled(r) then [r]
    else
      match FirstFor(terms, r.labels[NODE_ROLE_LABEL])
      case None => [r]
      case Some(t) => if t.termType.Remove? then [] else [Pointed(t, r)]
  }

  function Images(rs: seq<StaticRoute>, terms: seq<Term>): seq<StaticRoute> {
    if rs == [] then [] else Images(rs[..|rs| - 1], terms) + Image(rs[|rs| - 1], terms)
  }

  /** The nodes whose routes a rewrite points elsewhere in place. */
  function Updated(rs: seq<StaticRoute>, terms: seq<Term>): set<string> {
    set r | r in rs && IsLabelled(r) && IsUpdate(terms, r.labels[NODE_ROLE_LABEL]) :: r.labels[NODE_ROLE_LABEL]
  }

  predicate IsUpdate(terms: seq<Term>, node: string) {
    FirstFor(terms, node).Some? && FirstFor(terms, node).value.termType.AddOrUpdate?
  }

  function Appended(terms: seq<Term>, updated: set<string>): seq<StaticRoute> {
    if terms == [] then [] else
    var last := terms[|terms| - 1];
    Appended(terms[..|terms| - 1], updated)
    + if last.termType.AddOrUpdate? && last.nodeName !in updated then [NewRoute(last)] else []
  }

  function Rewrite(rs: seq<StaticRoute>, terms: seq<Term>): seq<StaticRoute> {
    Images(rs, terms) + Appended(terms, Updated(rs, terms))
  }

  // The loops

  /** The inner loop: what is put in the place of one labelled route. */
  method ReplaceOne(existing: StaticRoute, filterTerms: seq<Term>) returns (image: seq<StaticRoute>, updated: bool)
    requires IsLabelled(existing)
    ensures image == Image(existing, filterTerms)
    ensures updated <==> IsUpdate(filterTerms, existing.labels[NODE_ROLE_LABEL])
  {
    var nodeName := existing.labels[NODE_ROLE_LABEL];
    var deleteRoute, routeAppended := false, false;
    image := [];
    for j := 0 to |filterTerms|
      invariant !deleteRoute && !routeAppended && image == []
      invariant forall i :: 0 <= i < j ==> filterTerms[i].nodeName != nodeName
    {
      var filter := filterTerms[j];
      if nodeName != filter.nodeName {
        continue;
      }
      FirstForAt(filterTerms, nodeName, j);
      if filter.termType.AddOrUpdate? {
        image := [StaticRoute(filter.destinationCidr, NextHopAddress(filter.nextHop), existing.labels)];
        routeAppended := true;
        break;
      }
      if filter.termType.Remove? {
        deleteRoute := true;
        break;
      }
    }
    if !deleteRoute && !routeAppended {
      image := [existing];
    }
    updated := routeAppended;
  }

  method FilterStaticRoutes(staticRoutes: seq<StaticRoute>, filterTerms: seq<Term>) returns (ret: seq<StaticRoute>)
    ensures ret == Rewrite(staticRoutes, filterTerms)
  {
    var nodeNamesUpdatedSet: set<string> := {};
    ret := [];
    for i := 0 to |staticRoutes|
      invariant ret == Images(staticRoutes[..i], filterTerms)
      invariant nodeNamesUpdatedSet == Updated(staticRoutes[..i], filterTerms)
    {
      ImagesNext(staticRoutes, i, filterTerms);
      var existing := staticRoutes[i];
      if NODE_ROLE_LABEL !in existing.labels {
        ret := ret + [existing];
        continue;
      }
      var image, updated := ReplaceOne(existing, filterTerms);
      ret := ret + image;
      if updated {
        nodeNamesUpdatedSet := nodeNamesUpdatedSet + {existing.labels[NODE_ROLE_LABEL]};
      }
    }
    assert staticRoutes[..|staticRoutes|] == staticRoutes;
    for j := 0 to |filterTerms|
      invariant ret == Images(staticRoutes, filterTerms) + Appended(filterTerms[..j], nodeNamesUpdatedSet)
    {
      AppendedNext(filterTerms, j, nodeNamesUpdatedSet);
      var filter := filterTerms[j];
      if filter.termType.AddOrUpdate? {
        if filter.nodeName !in nodeNamesUpdatedSet {
          ret := ret + [NewRoute(filter)];
        }
      }
    }
    assert filterTerms[..|filterTerms|] == filterTerms;
  }

  lemma {:induction false} FirstForAt(terms: seq<Term>, node: string, j: nat)
    requires j < |terms| && terms[j].nodeName == node
    requires forall i :: 0 <= i < j ==> terms[i].nodeName != node
    ensures FirstFor(terms, node) == Some(terms[j])
  {
    if j > 0 {
      FirstForAt(terms[1..], node, j - 1);
    }
  }

  lemma ImagesNext(rs: seq<StaticRoute>, i: nat, terms: seq<Term>)
    requires i < |rs|
    ensures Images(rs[..i + 1], terms) == Images(rs[..i], terms) + Image(rs[i], terms)
    ensures Updated(rs[..i + 1], terms) == Updated(rs[..i], terms) +
              if IsLabelled(rs[i]) && IsUpdate(terms, rs[i].labels[NODE_ROLE_LABEL])
                then {rs[i].labels[NODE_ROLE_LABEL]} else {}
  {
    assert rs[..i + 1] == rs[..i] + [rs[i]] && rs[..i + 1][..i] == rs[..i];
  }

  lemma AppendedNext(terms: seq<Term>, j: nat, updated: set<string>)
    requires j < |terms|
    ensures Appended(terms[..j + 1], updated) == Appended(terms[..j], updated) +
              if terms[j].termType.AddOrUpdate? && terms[j].nodeName !in updated then [NewRoute(terms[j])] else []
  {
    assert terms[..j + 1][..j] == terms[..j];
  }
}
