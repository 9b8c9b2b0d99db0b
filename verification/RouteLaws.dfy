/** What rewriting the route table preserves, and the map from nodes to routes that it refines. */
module RouteLaws {
  import opened Seqs
  import opened Routes

  // Node by node

  ghost function RoutesFor(rs: seq<StaticRoute>, node: string): seq<StaticRoute> {
    Filter(rs, r => IsFor(r, node))
  }

  ghost function AllPointed(rs: seq<StaticRoute>, t: Term): seq<StaticRoute> {
    Map(rs, r => Pointed(t, r))
  }

  /** The new routes that a list of terms asks for on behalf of a node, one for each of its additions. */
  ghost function AdditionsFor(terms: seq<Term>, node: string): seq<StaticRoute> {
    if terms == [] then [] else
    var last := terms[|terms| - 1];
    AdditionsFor(terms[..|terms| - 1], node)
    + if last.termType.AddOrUpdate? && last.nodeName == node then [NewRoute(last)] else []
  }

  /** What becomes of the routes of one node. */
  ghost function RoutesAfter(rs: seq<StaticRoute>, terms: seq<Term>, node: string): seq<StaticRoute> {
    match FirstFor(terms, node)
    case None => RoutesFor(rs, node)
    case Some(t) =>
      if t.termType.AddOrUpdate? && RoutesFor(rs, node) != [] then AllPointed(RoutesFor(rs, node), t)
      else AdditionsFor(terms, node)
  }

  lemma RoutesForAppend(xs: seq<StaticRoute>, ys: seq<StaticRoute>, node: string)
    ensures RoutesFor(xs + ys, node) == RoutesFor(xs, node) + RoutesFor(ys, node)
  {
    FilterAppend(xs, ys, r => IsFor(r, node));
  }

  lemma RoutesForOne(r: StaticRoute, node: string)
    ensures RoutesFor([r], node) == if IsFor(r, node) then [r] else []
  {
    if IsFor(r, node) {
      FilterAll([r], r => IsFor(r, node));
    } else {
      FilterNone([r], r => IsFor(r, node));
    }
  }

  lemma RoutesForMembers(rs: seq<StaticRoute>, node: string, r: StaticRoute)
    ensures r in RoutesFor(rs, node) <==> r in rs && IsFor(r, node)
  {
    FilterMembers(rs, r => IsFor(r, node), r);
  }

  /** The induction step on images: the last route's image comes last. */
  lemma ImagesSnoc(rs: seq<StaticRoute>, terms: seq<Term>)
    requires rs != []
    ensures var front, last := rs[..|rs| - 1], rs[|rs| - 1];
            rs == front + [last] && Images(rs, terms) == Images(front, terms) + Image(last, terms)
  {
  }

  lemma RoutesForImagesSnoc(rs: seq<StaticRoute>, terms: seq<Term>, node: string)
    requires rs != []
    ensures var front, last := rs[..|rs| - 1], rs[|rs| - 1];
            && RoutesFor(Images(rs, terms), node) ==
               RoutesFor(Images(front, terms), node) + RoutesFor(Image(last, terms), node)
            && RoutesFor(rs, node) == RoutesFor(front, node) + if IsFor(last, node) then [last] else []
  {
    hide *;
    var front, last := rs[..|rs| - 1], rs[|rs| - 1];
    ImagesSnoc(rs, terms);
    RoutesForAppend(Images(front, terms), Image(last, terms), node);
    RoutesForAppend(front, [last], node);
    RoutesForOne(last, node);
  }

  lemma NoRoutes(node: string)
    ensures RoutesFor([], node) == []
  {
  }

  lemma NoImages(terms: seq<Term>)
    ensures Images([], terms) == []
  {
  }

  lemma {:induction false} RoutesForKept(rs: seq<StaticRoute>, terms: seq<Term>, node: string)
    requires FirstFor(terms, node).None?
    ensures RoutesFor(Images(rs, terms), node) == RoutesFor(rs, node)
  {
    hide *;
    if rs == [] {
      NoImages(terms);
    } else {
      RoutesForKept(rs[..|rs| - 1], terms, node);
      RoutesForImagesSnoc(rs, terms, node);
      ImageFor(rs[|rs| - 1], terms, node);
    }
  }

  lemma {:induction false} RoutesForDropped(rs: seq<StaticRoute>, terms: seq<Term>, node: string)
    requires FirstFor(terms, node).Some? && FirstFor(terms, node).value.termType.Remove?
    ensures RoutesFor(Images(rs, terms), node) == []
  {
    hide *;
    if rs == [] {
      NoImages(terms);
      NoRoutes(node);
    } else {
      RoutesForDropped(rs[..|rs| - 1], terms, node);
      RoutesForImagesSnoc(rs, terms, node);
      ImageFor(rs[|rs| - 1], terms, node);
    }
  }

  lemma {:induction false} RoutesForPointed(rs: seq<StaticRoute>, terms: seq<Term>, node: string)
    requires FirstFor(terms, node).Some? && FirstFor(terms, node).value.termType.AddOrUpdate?
    ensures RoutesFor(Images(rs, terms), node) == AllPointed(RoutesFor(rs, node), FirstFor(terms, node).value)
  {
    hide *;
    var t := FirstFor(terms, node).value;
    AllPointedNone(t);
    if rs == [] {
      NoImages(terms);
      NoRoutes(node);
    } else {
      var front, last := rs[..|rs| - 1], rs[|rs| - 1];
      RoutesForPointed(front, terms, node);
      RoutesForImagesSnoc(rs, terms, node);
      ImageFor(last, terms, node);
      AllPointedAppend(RoutesFor(front, node), if IsFor(last, node) then [last] else [], t);
    }
  }

  lemma RoutesForImages(rs: seq<StaticRoute>, terms: seq<Term>, node: string)
    ensures RoutesFor(Images(rs, terms), node) ==
            match FirstFor(terms, node)
            case None => RoutesFor(rs, node)
            case Some(t) => if t.termType.Remove? then [] else AllPointed(RoutesFor(rs, node), t)
  {
    hide *;
    if FirstFor(terms, node).None? {
      RoutesForKept(rs, terms, node);
    } else if FirstFor(terms, node).value.termType.Remove? {
      RoutesForDropped(rs, terms, node);
    } else {
      RoutesForPointed(rs, terms, node);
    }
  }

  lemma AllPointedNone(t: Term)
    ensures AllPointed([], t) == []
  {
  }

  lemma AllPointedAppend(xs: seq<StaticRoute>, ys: seq<StaticRoute>, t: Term)
    ensures AllPointed(xs + ys, t) == AllPointed(xs, t) + AllPointed(ys, t)
    ensures |ys| == 1 ==> AllPointed(ys, t) == [Pointed(t, ys[0])]
  {
  }

  lemma ImageFor(r: StaticRoute, terms: seq<Term>, node: string)
    ensures RoutesFor(Image(r, terms), node) ==
            if !IsFor(r, node) then []
            else
              match FirstFor(terms, node)
              case None => [r]
              case Some(t) => if t.termType.Remove? then [] else [Pointed(t, r)]
  {
    if Image(r, terms) != [] { RoutesForOne(Image(r, terms)[0], node); }
  }

  lemma {:induction false} RoutesForAppended(terms: seq<Term>, updated: set<string>, node: string)
    ensures RoutesFor(Appended(terms, updated), node) == if node in updated then [] else AdditionsFor(terms, node)
  {
    if terms != [] {
      var front, last := terms[..|terms| - 1], terms[|terms| - 1];
      RoutesForAppended(front, updated, node);
      RoutesForOne(NewRoute(last), node);
      RoutesForAppend(Appended(front, updated), [NewRoute(last)], node);
      assert IsFor(NewRoute(last), node) <==> last.nodeName == node;
      assert Appended(front, updated) + [] == Appended(front, updated);
      assert AdditionsFor(front, node) + [] == AdditionsFor(front, node);
    }
  }

  lemma {:induction false} NoAdditions(terms: seq<Term>, node: string)
    requires FirstFor(terms, node).None?
    ensures AdditionsFor(terms, node) == []
  {
    if terms != [] {
      NoAdditions(terms[..|terms| - 1], node);
    }
  }

  lemma UpdatedIff(rs: seq<StaticRoute>, terms: seq<Term>, node: string)
    ensures node in Updated(rs, terms) <==> IsUpdate(terms, node) && RoutesFor(rs, node) != []
  {
    if r :| r in rs && IsFor(r, node) { RoutesForMembers(rs, node, r); }
    if RoutesFor(rs, node) != [] { RoutesForMembers(rs, node, RoutesFor(rs, node)[0]); }
  }

  /** What a rewrite makes of the routes of a node, whatever the terms and however often they name it. */
  lemma NodeByNode(rs: seq<StaticRoute>, terms: seq<Term>, node: string)
    ensures RoutesFor(Rewrite(rs, terms), node) == RoutesAfter(rs, terms, node)
  {
    RewriteIs(rs, terms);
    UpdatedIff(rs, terms, node);
    hide Rewrite, Images, Appended, Updated, RoutesFor, AdditionsFor, FirstFor, AllPointed;
    RoutesForAppend(Images(rs, terms), Appended(terms, Updated(rs, terms)), node);
    RoutesForImages(rs, terms, node);
    RoutesForAppended(terms, Updated(rs, terms), node);
    if FirstFor(terms, node).None? {
      NoAdditions(terms, node);
    } else if RoutesFor(rs, node) == [] {
      AllPointedNone(FirstFor(terms, node).value);
    }
  }

  lemma RewriteIs(rs: seq<StaticRoute>, terms: seq<Term>)
    ensures Rewrite(rs, terms) == Images(rs, terms) + Appended(terms, Updated(rs, terms))
  {
  }

  predicate Concerns(terms: seq<Term>, r: StaticRoute) {
    IsLabelled(r) && exists t :: t in terms && t.nodeName == r.labels[NODE_ROLE_LABEL]
  }

  ghost function Bystanders(rs: seq<StaticRoute>, terms: seq<Term>): seq<StaticRoute> {
    Filter(rs, r => !Concerns(terms, r))
  }

  lemma BystandersAppend(xs: seq<StaticRoute>, ys: seq<StaticRoute>, terms: seq<Term>)
    ensures Bystanders(xs + ys, terms) == Bystanders(xs, terms) + Bystanders(ys, terms)
  {
    FilterAppend(xs, ys, r => !Concerns(terms, r));
  }

  lemma {:induction false} BystandersOfImages(rs: seq<StaticRoute>, terms: seq<Term>)
    ensures Bystanders(Images(rs, terms), terms) == Bystanders(rs, terms)
  {
    if rs != [] {
      var front, last := rs[..|rs| - 1], rs[|rs| - 1];
      BystandersOfImages(front, terms);
      assert rs == front + [last];
      BystandersAppend(front, [last], terms);
      BystandersAppend(Images(front, terms), Image(last, terms), terms);
      if Concerns(terms, last) {
        FilterNone(Image(last, terms), r => !Concerns(terms, r));
        FilterNone([last], r => !Concerns(terms, r));
      }
    }
  }

  lemma AppendedConcerned(terms: seq<Term>, updated: set<string>, r: StaticRoute)
    ensures r in Appended(terms, updated) <==>
            exists t :: t in terms && t.termType.AddOrUpdate? && t.nodeName !in updated && r == NewRoute(t)
  {
    if terms != [] {
      assert terms == terms[..|terms| - 1] + [terms[|terms| - 1]];
      AppendedConcerned(terms[..|terms| - 1], updated, r);
    }
  }

  /** Routes without a label, and routes of nodes that no term names, keep content and order. */
  lemma BystandersKept(rs: seq<StaticRoute>, terms: seq<Term>)
    ensures Bystanders(Rewrite(rs, terms), terms) == Bystanders(rs, terms)
  {
    var added := Appended(terms, Updated(rs, terms));
    BystandersOfImages(rs, terms);
    BystandersAppend(Images(rs, terms), added, terms);
    forall r | r in added ensures Concerns(terms, r) {
      AppendedConcerned(terms, Updated(rs, terms), r);
    }
    FilterNone(added, r => !Concerns(terms, r));
  }

  /** Where nothing is removed, every route stays at its place and new ones come after them. */
  lemma {:induction false} PositionsKept(rs: seq<StaticRoute>, terms: seq<Term>)
    requires forall t :: t in terms ==> t.termType.AddOrUpdate?
    ensures |Images(rs, terms)| == |rs|
    ensures forall i :: 0 <= i < |rs| ==> [Images(rs, terms)[i]] == Image(rs[i], terms)
  {
    if rs != [] {
      PositionsKept(rs[..|rs| - 1], terms);
    }
  }

  // One term after the other

  /** The terms applied one at a time, first to last. */
  ghost function Fold(rs: seq<StaticRoute>, terms: seq<Term>): seq<StaticRoute> {
    if terms == [] then rs else Rewrite(Fold(rs, terms[..|terms| - 1]), [terms[|terms| - 1]])
  }

  lemma {:induction false} FirstForSnoc(terms: seq<Term>, t: Term, node: string)
    ensures FirstFor(terms + [t], node) ==
            if FirstFor(terms, node).Some? then FirstFor(terms, node) else if t.nodeName == node then Some(t) else None
  {
    if terms == [] {
      assert terms + [t] == [t];
      assert FirstFor([t][1..], node) == None;
    } else {
      assert (terms + [t])[1..] == terms[1..] + [t];
      FirstForSnoc(terms[1..], t, node);
    }
  }

  lemma FirstForOne(t: Term, node: string)
    ensures FirstFor([t], node) == if t.nodeName == node then Some(t) else None
  {
    FirstForSnoc([], t, node);
    assert [] + [t] == [t];
  }

  lemma {:induction false} ImagesAppend(xs: seq<StaticRoute>, ys: seq<StaticRoute>, terms: seq<Term>)
    ensures Images(xs + ys, terms) == Images(xs, terms) + Images(ys, terms)
  {
    if ys == [] {
      assert xs + ys == xs;
    } else {
      assert (xs + ys)[..|xs + ys| - 1] == xs + ys[..|ys| - 1];
      ImagesAppend(xs, ys[..|ys| - 1], terms);
    }
  }

  /** Routes that a rewrite maps to themselves stay as they are. */
  lemma {:induction false} ImagesFixed(rs: seq<StaticRoute>, terms: seq<Term>)
    requires forall r :: r in rs ==> Image(r, terms) == [r]
    ensures Images(rs, terms) == rs
  {
    hide *;
    if rs == [] {
      NoImages(terms);
    } else {
      ImagesSnoc(rs, terms);
      ImagesFixed(rs[..|rs| - 1], terms);
      assert Image(rs[|rs| - 1], terms) == [rs[|rs| - 1]];
    }
  }

  lemma ImageThenOne(r: StaticRoute, terms: seq<Term>, t: Term)
    requires forall u :: u in terms ==> u.nodeName != t.nodeName
    ensures Images(Image(r, terms), [t]) == Image(r, terms + [t])
  {
    if IsLabelled(r) {
      FirstForSnoc(terms, t, r.labels[NODE_ROLE_LABEL]);
      FirstForOne(t, r.labels[NODE_ROLE_LABEL]);
    }
    var image := Image(r, terms);
    if image != [] {
      assert image == [image[0]] && image[..0] == [];
      assert Images([], [t]) == [];
      assert Images(image, [t]) == Image(image[0], [t]);
    }
  }

  lemma {:induction false} ImagesThenOne(rs: seq<StaticRoute>, terms: seq<Term>, t: Term)
    requires forall u :: u in terms ==> u.nodeName != t.nodeName
    ensures Images(Images(rs, terms), [t]) == Images(rs, terms + [t])
  {
    if rs != [] {
      var front, last := rs[..|rs| - 1], rs[|rs| - 1];
      ImagesThenOne(front, terms, t);
      ImageThenOne(last, terms, t);
      ImagesAppend(Images(front, terms), Image(last, terms), [t]);
    }
  }

  lemma {:induction false} AppendedAgree(terms: seq<Term>, updated: set<string>, other: set<string>)
    requires forall t :: t in terms ==> (t.nodeName in updated <==> t.nodeName in other)
    ensures Appended(terms, updated) == Appended(terms, other)
  {
    if terms != [] {
      AppendedAgree(terms[..|terms| - 1], updated, other);
    }
  }

  lemma LastTermImages(rs: seq<StaticRoute>, terms: seq<Term>, t: Term)
    requires forall u :: u in terms ==> u.nodeName != t.nodeName
    ensures Images(Rewrite(rs, terms), [t]) == Images(rs, terms + [t]) + Appended(terms, Updated(rs, terms))
  {
    var added := Appended(terms, Updated(rs, terms));
    forall r | r in added ensures Image(r, [t]) == [r] {
      AppendedConcerned(terms, Updated(rs, terms), r);
      FirstForOne(t, r.labels[NODE_ROLE_LABEL]);
    }
    ImagesFixed(added, [t]);
    ImagesAppend(Images(rs, terms), added, [t]);
    ImagesThenOne(rs, terms, t);
  }

  lemma LastTermAppended(rs: seq<StaticRoute>, terms: seq<Term>, t: Term)
    requires forall u :: u in terms ==> u.nodeName != t.nodeName
    ensures Appended(terms + [t], Updated(rs, terms + [t]))
         == Appended(terms, Updated(rs, terms)) + Appended([t], Updated(Rewrite(rs, terms), [t]))
  {
    var all, once := terms + [t], Rewrite(rs, terms);
    hide Rewrite, Updated;
    forall u | u in terms ensures u.nodeName in Updated(rs, all) <==> u.nodeName in Updated(rs, terms) {
      LastTermUpdates(rs, terms, t, u);
    }
    LastTermUpdates(rs, terms, t, t);
    assert all[..|terms|] == terms && [t][..0] == [];
    AppendedAgree(terms, Updated(rs, all), Updated(rs, terms));
    assert Appended([], Updated(once, [t])) == [];
  }

  /** A term for a node that the terms before it do not name may as well be applied afterwards. */
  lemma LastTermAlone(rs: seq<StaticRoute>, terms: seq<Term>, t: Term)
    requires forall u :: u in terms ==> u.nodeName != t.nodeName
    ensures Rewrite(rs, terms + [t]) == Rewrite(Rewrite(rs, terms), [t])
  {
    hide Images, Appended, Updated;
    LastTermImages(rs, terms, t);
    LastTermAppended(rs, terms, t);
  }

  lemma LastTermUpdates(rs: seq<StaticRoute>, terms: seq<Term>, t: Term, u: Term)
    requires forall u :: u in terms ==> u.nodeName != t.nodeName
    requires u in terms + [t]
    ensures u.nodeName in Updated(rs, terms + [t]) <==>
            u.nodeName in Updated(if u == t then Rewrite(rs, terms) else rs, if u == t then [t] else terms)
  {
    FirstForSnoc(terms, t, u.nodeName);
    FirstForOne(t, u.nodeName);
    UpdatedIff(rs, terms + [t], u.nodeName);
    if u == t {
      UpdatedIff(Rewrite(rs, terms), [t], u.nodeName);
      NodeByNode(rs, terms, u.nodeName);
    } else {
      UpdatedIff(rs, terms, u.nodeName);
    }
  }

  lemma FoldSnoc(rs: seq<StaticRoute>, terms: seq<Term>, t: Term)
    ensures Fold(rs, terms + [t]) == Rewrite(Fold(rs, terms), [t])
  {
    assert (terms + [t])[..|terms + [t]| - 1] == terms;
  }

  /** A repetition among the terms follows removals only: each node's terms, but for the last, are removals. */
  ghost predicate RepeatsRemovalsOnly(terms: seq<Term>) {
    forall i, j :: 0 <= i < j < |terms| && terms[i].nodeName == terms[j].nodeName ==> terms[i].termType.Remove?
  }

  lemma {:induction false} ImagesAgree(rs: seq<StaticRoute>, terms: seq<Term>, other: seq<Term>)
    requires forall node :: FirstFor(terms, node) == FirstFor(other, node)
    ensures Images(rs, terms) == Images(rs, other)
  {
    if rs == [] {
      NoImages(terms);
      NoImages(other);
    } else {
      ImagesSnoc(rs, terms);
      ImagesSnoc(rs, other);
      ImagesAgree(rs[..|rs| - 1], terms, other);
      assert Image(rs[|rs| - 1], terms) == Image(rs[|rs| - 1], other);
      hide *;
    }
  }

  lemma UpdatedAgree(rs: seq<StaticRoute>, terms: seq<Term>, other: seq<Term>)
    requires forall node :: FirstFor(terms, node) == FirstFor(other, node)
    ensures Updated(rs, terms) == Updated(rs, other)
  {
    hide FirstFor;
  }

  lemma {:induction false} RemovalsAddNothing(terms: seq<Term>, node: string)
    requires forall u :: u in terms && u.nodeName == node ==> u.termType.Remove?
    ensures AdditionsFor(terms, node) == []
  {
    if terms != [] {
      RemovalsAddNothing(terms[..|terms| - 1], node);
    }
  }

  /** A term that follows removals for its node changes nothing about the routes that are there. */
  lemma AfterRemovals(rs: seq<StaticRoute>, terms: seq<Term>, t: Term)
    requires FirstFor(terms, t.nodeName).Some?
    requires forall u :: u in terms && u.nodeName == t.nodeName ==> u.termType.Remove?
    ensures Rewrite(rs, terms + [t]) == Rewrite(rs, terms) + if t.termType.AddOrUpdate? then [NewRoute(t)] else []
  {
    hide Images, FirstFor, Updated;
    var all := terms + [t];
    forall node ensures FirstFor(all, node) == FirstFor(terms, node) { FirstForSnoc(terms, t, node); }
    ImagesAgree(rs, all, terms);
    UpdatedAgree(rs, all, terms);
    UpdatedIff(rs, terms, t.nodeName);
    AppendedNext(all, |terms|, Updated(rs, terms));
    assert all[..|terms|] == terms && all[..|terms| + 1] == all;
    hide Appended;
    assert Rewrite(rs, all) == Images(rs, terms) + Appended(all, Updated(rs, terms));
  }

  /** Once a node has no route, a term for it leaves the others alone. */
  lemma OnNoRoute(rs: seq<StaticRoute>, t: Term)
    requires RoutesFor(rs, t.nodeName) == []
    ensures Rewrite(rs, [t]) == rs + if t.termType.AddOrUpdate? then [NewRoute(t)] else []
  {
    hide Images, RoutesFor, FirstFor, Updated;
    forall r | r in rs ensures Image(r, [t]) == [r] {
      RoutesForMembers(rs, t.nodeName, r);
      if IsLabelled(r) { FirstForOne(t, r.labels[NODE_ROLE_LABEL]); }
    }
    ImagesFixed(rs, [t]);
    UpdatedIff(rs, [t], t.nodeName);
    AppendedNext([t], 0, Updated(rs, [t]));
    assert [t][..0] == [] && [t][..1] == [t];
  }

  /** A term may be applied afterwards if the terms before it name its node in removals only. */
  lemma LastTermApart(rs: seq<StaticRoute>, terms: seq<Term>, t: Term)
    requires forall u :: u in terms && u.nodeName == t.nodeName ==> u.termType.Remove?
    ensures Rewrite(rs, terms + [t]) == Rewrite(Rewrite(rs, terms), [t])
  {
    if FirstFor(terms, t.nodeName).None? {
      LastTermAlone(rs, terms, t);
    } else {
      hide *;
      AfterRemovals(rs, terms, t);
      NodeByNode(rs, terms, t.nodeName);
      RemovalsAddNothing(terms, t.nodeName);
      FirstIsRemoval(rs, terms, t.nodeName);
      OnNoRoute(Rewrite(rs, terms), t);
    }
  }

  lemma FirstIsRemoval(rs: seq<StaticRoute>, terms: seq<Term>, node: string)
    requires FirstFor(terms, node).Some? && forall u :: u in terms && u.nodeName == node ==> u.termType.Remove?
    ensures RoutesAfter(rs, terms, node) == AdditionsFor(terms, node)
  {
  }

  lemma {:induction false} BatchIsFold(rs: seq<StaticRoute>, terms: seq<Term>)
    requires RepeatsRemovalsOnly(terms)
    ensures Rewrite(rs, terms) == Fold(rs, terms)
  {
    if terms == [] {
      ImagesFixed(rs, []);
    } else {
      var front, last := terms[..|terms| - 1], terms[|terms| - 1];
      assert terms == front + [last];
      forall u | u in front && u.nodeName == last.nodeName ensures u.termType.Remove? {
        var i :| 0 <= i < |front| && front[i] == u;
        assert terms[i].nodeName == terms[|terms| - 1].nodeName;
      }
      BatchIsFold(rs, front);
      LastTermApart(rs, front, last);
      FoldSnoc(rs, front, last);
      hide *;
    }
  }
}
