/**
 Which group may get which target when the cloud keeps a target in one group only, seen as a map from
 group names to targets (README.md:114, pkg/cloudprovider/yandex/load_balancer_tg_controller.go:139-151).
 */
module Claims {
  import opened Seqs
  import opened Cloud

  type View = map<string, set<Target>>

  /** No target is in two groups. */
  ghost predicate Apart(view: View) {
    forall j, k :: j in view && k in view && j != k ==> view[j] !! view[k]
  }

  /** No group but this one holds any of these targets. */
  ghost predicate Claimable(view: View, name: string, ts: set<Target>) {
    forall k :: k in view && k != name ==> ts !! view[k]
  }

  /** No wanted target is in another group than the one it is wanted for. */
  ghost predicate AllClaimable(view: View, wanted: View) {
    forall j :: j in wanted ==> Claimable(view, j, wanted[j])
  }

  /** What a pass that was cut short may have made of the groups: nothing, all it wanted, or the additions. */
  ghost predicate Reached(view: View, name: string, wanted: set<Target>, now: View) {
    || now == view
    || now == view[name := wanted]
    || (name in view && now == view[name := view[name] + wanted])
  }

  /** In a cloud that keeps targets apart, only what a group lacks can be in another group. */
  lemma OnlyWhatIsLacking(view: View, wanted: View)
    requires Apart(view)
    ensures AllClaimable(view, wanted) <==>
            forall j, k :: j in wanted && k in view && k != j ==>
              (wanted[j] - if j in view then view[j] else {}) !! view[k]
  {
    if forall j, k :: j in wanted && k in view && k != j ==>
         (wanted[j] - if j in view then view[j] else {}) !! view[k] {
      forall j, k | j in wanted && k in view && k != j ensures wanted[j] !! view[k] {
        assert j in view ==> view[j] !! view[k];
      }
    }
  }

  /** Overriding groups keeps targets apart exactly if no group outside the mapping holds a wanted target. */
  lemma SyncedApartIff(view: View, wanted: View)
    requires Apart(view) && Apart(wanted)
    ensures Apart(view + wanted) <==> forall j, k :: j in wanted && k in view && k !in wanted ==> wanted[j] !! view[k]
  {
    var now := view + wanted;
    if Apart(now) {
      forall j, k | j in wanted && k in view && k !in wanted ensures wanted[j] !! view[k] {
        assert now[j] == wanted[j] && now[k] == view[k] && j != k;
      }
    }
  }

  // The order of the updates

  ghost predicate Lists(order: seq<string>, names: set<string>) {
    Distinct(order) && forall k :: k in order <==> k in names
  }

  /** The cloud takes every update of a sync that goes through the groups in this order. */
  ghost predicate OrderTaken(view: View, wanted: View, order: seq<string>)
    decreases |order|
  {
    order != [] ==>
      && order[0] in wanted && Claimable(view, order[0], wanted[order[0]])
      && OrderTaken(view[order[0] := wanted[order[0]]], wanted, order[1..])
  }

  lemma {:induction false} ListingOf(names: set<string>) returns (order: seq<string>)
    ensures Lists(order, names)
  {
    if names == {} {
      order := [];
    } else {
      var k :| k in names;
      var rest := ListingOf(names - {k});
      order := [k] + rest;
    }
  }

  lemma UpdateKeepsClaimable(view: View, wanted: View, k: string)
    requires Apart(wanted) && AllClaimable(view, wanted) && k in wanted
    ensures AllClaimable(view[k := wanted[k]], wanted)
  {
  }

  lemma {:induction false} ClaimableOrder(view: View, wanted: View, order: seq<string>)
    requires Apart(wanted) && AllClaimable(view, wanted) && forall k :: k in order ==> k in wanted
    ensures OrderTaken(view, wanted, order)
    decreases |order|
  {
    if order != [] {
      assert order[0] in order;
      UpdateKeepsClaimable(view, wanted, order[0]);
      ClaimableOrder(view[order[0] := wanted[order[0]]], wanted, order[1..]);
    }
  }

  /** The cloud takes every update of a sync, whatever order the mapping yields, exactly if no wanted
      target is in another group. */
  lemma EveryOrderTakenIff(view: View, wanted: View)
    requires Apart(wanted)
    ensures (forall order :: Lists(order, wanted.Keys) ==> OrderTaken(view, wanted, order)) <==>
            AllClaimable(view, wanted)
  {
    if AllClaimable(view, wanted) {
      forall order | Lists(order, wanted.Keys) ensures OrderTaken(view, wanted, order) {
        ClaimableOrder(view, wanted, order);
      }
    } else {
      var j :| j in wanted && !Claimable(view, j, wanted[j]);
      var rest := ListingOf(wanted.Keys - {j});
      var order := [j] + rest;
      assert Lists(order, wanted.Keys) && !OrderTaken(view, wanted, order);
    }
  }

  /** Group j gets no target that is in another of these groups or in a group outside the mapping. */
  ghost predicate FreeAmong(view: View, wanted: View, names: set<string>, j: string)
    requires j in wanted
  {
    forall k :: k in view && k != j && (k in names || k !in wanted) ==> wanted[j] !! view[k]
  }

  /** Groups of the mapping that wait for each other, or for groups outside it, to give up a target. */
  ghost predicate Blocked(view: View, wanted: View, names: set<string>) {
    names != {} && names <= wanted.Keys && forall j :: j in names ==> !FreeAmong(view, wanted, names, j)
  }

  /** Whatever update gets through, cut short or not, it is none of theirs and leaves them waiting. */
  lemma BlockedStays(view: View, wanted: View, names: set<string>, k: string, now: View)
    requires Blocked(view, wanted, names) && k in wanted && Claimable(view, k, wanted[k])
    requires Reached(view, k, wanted[k], now)
    ensures k !in names && Blocked(now, wanted, names)
  {
    assert k in names ==> FreeAmong(view, wanted, names, k);
    forall j | j in names ensures !FreeAmong(now, wanted, names, j) {
      var i :| i in view && i != j && (i in names || i !in wanted) && !(wanted[j] !! view[i]);
      assert i != k && i in now && now[i] == view[i];
    }
  }

  /** A sync of these groups that starts blocked does not succeed and leaves the same groups waiting. */
  ghost predicate StaysBlocked(view: View, wanted: View, ok: bool, now: View) {
    forall names :: Blocked(view, wanted, names) ==> !ok && Blocked(now, wanted, names)
  }

  /** What the loop over the mapping knows as long as these groups are pending. */
  ghost predicate BlockedPending(view: View, wanted: View, pending: set<string>, now: View) {
    forall names :: Blocked(view, wanted, names) ==> names <= pending && Blocked(now, wanted, names)
  }

  lemma BlockedPendingStep(view: View, wanted: View, pending: set<string>, before: View, k: string, ok: bool, now: View)
    requires BlockedPending(view, wanted, pending, before) && k in pending && k in wanted
    requires Reached(before, k, wanted[k], now) && (ok || now != before ==> Claimable(before, k, wanted[k]))
    ensures BlockedPending(view, wanted, if ok then pending - {k} else pending, now)
  {
    hide Blocked, Claimable, Reached;
    if Claimable(before, k, wanted[k]) {
      forall names | Blocked(view, wanted, names) ensures k !in names && Blocked(now, wanted, names) {
        BlockedStays(before, wanted, names, k, now);
      }
    }
  }

  lemma BlockedPendingDone(view: View, wanted: View, pending: set<string>, now: View, ok: bool)
    requires BlockedPending(view, wanted, pending, now) && (ok ==> pending == {})
    ensures StaysBlocked(view, wanted, ok, now)
  {
  }

  lemma {:induction false} BlockedOrder(view: View, wanted: View, names: set<string>, order: seq<string>)
    requires Blocked(view, wanted, names) && forall k :: k in names ==> k in order
    ensures !OrderTaken(view, wanted, order)
    decreases |order|
  {
    var k :| k in names;
    assert k in order;
    if OrderTaken(view, wanted, order) {
      var next := view[order[0] := wanted[order[0]]];
      BlockedStays(view, wanted, names, order[0], next);
      assert order == [order[0]] + order[1..];
      BlockedOrder(next, wanted, names, order[1..]);
    }
  }

  /** As long as no groups wait for each other there is one that can go next, until none is left. */
  lemma {:induction false} UnblockedOrder(view: View, wanted: View, rest: set<string>) returns (order: seq<string>)
    requires Apart(wanted) && rest <= wanted.Keys && forall names :: names <= rest ==> !Blocked(view, wanted, names)
    ensures Lists(order, rest) && OrderTaken(view + (wanted - rest), wanted, order)
    decreases rest
  {
    if rest == {} {
      order := [];
    } else {
      assert !Blocked(view, wanted, rest);
      var j :| j in rest && FreeAmong(view, wanted, rest, j);
      var more := UnblockedOrder(view, wanted, rest - {j});
      order := [j] + more;
      NextInLine(view, wanted, rest, j);
      assert order[1..] == more;
    }
  }

  lemma NextInLine(view: View, wanted: View, rest: set<string>, j: string)
    requires Apart(wanted) && rest <= wanted.Keys && j in rest && FreeAmong(view, wanted, rest, j)
    ensures var now := view + (wanted - rest);
            Claimable(now, j, wanted[j]) && now[j := wanted[j]] == view + (wanted - (rest - {j}))
  {
  }

  /** Some order of the updates gets through exactly if no groups block each other; if some do, then no
      order does, and by BlockedStays no number of syncs cut short changes that. */
  lemma SomeOrderTakenIff(view: View, wanted: View)
    requires Apart(wanted)
    ensures (exists order :: Lists(order, wanted.Keys) && OrderTaken(view, wanted, order))
       <==> forall names :: !Blocked(view, wanted, names)
  {
    if names :| Blocked(view, wanted, names) {
      forall order | Lists(order, wanted.Keys) ensures !OrderTaken(view, wanted, order) {
        BlockedOrder(view, wanted, names, order);
      }
    } else {
      var order := UnblockedOrder(view, wanted, wanted.Keys);
      assert view + (wanted - wanted.Keys) == view;
    }
  }

  /** Between the two the order decides: j gives up t, which k can have only afterwards. */
  lemma OrderDecides(view: View, wanted: View, j: string, k: string, t: Target)
    requires Apart(view) && Apart(wanted) && view.Keys == {j} && wanted.Keys == {j, k} && j != k
    requires t in view[j] && wanted[k] == {t} && wanted[j] == view[j] - {t}
    ensures OrderTaken(view, wanted, [j, k]) && !OrderTaken(view, wanted, [k, j])
  {
    assert !Claimable(view, k, wanted[k]);
    assert [j, k][1..] == [k] && [k][1..] == [];
    var next := view[j := wanted[j]];
    assert Claimable(next, k, wanted[k]) && OrderTaken(next, wanted, [k]);
  }

  /** A node that loses its prefix: its target stays in a group outside the mapping and is wanted elsewhere. */
  lemma LeftBehindBlocks(view: View, wanted: View, j: string, k: string, t: Target)
    requires j in wanted && t in wanted[j] && k in view && k !in wanted && t in view[k]
    ensures Blocked(view, wanted, {j})
  {
  }

  /** Two nodes that swap their prefixes: each group waits for the other one's target. */
  lemma SwappedBlock(view: View, wanted: View, j: string, k: string, t: Target, u: Target)
    requires j != k && j in wanted && k in wanted && j in view && k in view
    requires t in view[k] && t in wanted[j] && u in view[j] && u in wanted[k]
    ensures Blocked(view, wanted, {j, k})
  {
  }
}
