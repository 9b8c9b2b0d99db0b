/** What the grouping of targets conserves and how group names behave. */
module GroupingLaws {
  import opened Seqs
  import opened Cloud
  import opened Grouping

  function InterfaceTarget(i: Interface): Target { Target(i.subnetId, i.address) }

  /** One target per interface of every instance, whatever group it ends up in. */
  ghost function InterfaceTargets(ps: seq<InstanceWithNode>): seq<Target> {
    if ps == [] then [] else InterfaceTargets(ps[..|ps| - 1]) + Map(ps[|ps| - 1].instance.interfaces, InterfaceTarget)
  }

  lemma {:induction false} PlaceSomeTargets(facts: Facts, p: InstanceWithNode, j: nat)
    requires j <= |p.instance.interfaces| && KnownSubnets(facts, p)
    ensures Map(PlaceSome(facts, p, j), TargetOf) == Map(p.instance.interfaces[..j], InterfaceTarget)
  {
    if j > 0 {
      PlaceSomeTargets(facts, p, j - 1);
      assert p.instance.interfaces[..j] == p.instance.interfaces[..j - 1] + [p.instance.interfaces[j - 1]];
    }
  }

  lemma {:induction false} PlaceAllTargets(facts: Facts, ps: seq<InstanceWithNode>)
    requires forall p :: p in ps ==> KnownSubnets(facts, p)
    ensures Map(PlaceAll(facts, ps), TargetOf) == InterfaceTargets(ps)
  {
    if ps != [] {
      var front, last := ps[..|ps| - 1], ps[|ps| - 1];
      PlaceAllTargets(facts, front);
      assert last in ps;
      PlaceSomeTargets(facts, last, |last.instance.interfaces|);
      MapAppend(PlaceAll(facts, front), PlaceSome(facts, last, |last.instance.interfaces|), TargetOf);
      assert last.instance.interfaces[..|last.instance.interfaces|] == last.instance.interfaces;
    }
  }

  ghost function WithKeyIn(placed: seq<Placed>, keys: seq<string>): seq<Placed> {
    Filter(placed, p => KeyOf(p) in keys)
  }

  function TargetBag(placed: seq<Placed>): multiset<Target> { multiset(Map(placed, TargetOf)) }

  lemma BagOfNone()
    ensures TargetBag([]) == multiset{}
  {
  }

  lemma BagAppend(xs: seq<Placed>, ys: seq<Placed>)
    ensures TargetBag(xs + ys) == TargetBag(xs) + TargetBag(ys)
  {
    MapAppend(xs, ys, TargetOf);
    hide Map;
  }

  lemma WithKeyInHead(placed: seq<Placed>, keys: seq<string>)
    requires placed != []
    ensures WithKeyIn(placed, keys) ==
            (if KeyOf(placed[0]) in keys then [placed[0]] else []) + WithKeyIn(placed[1..], keys)
  {
  }

  lemma WithKeyHead(placed: seq<Placed>, key: string)
    requires placed != []
    ensures WithKey(placed, key) == (if KeyOf(placed[0]) == key then [placed[0]] else []) + WithKey(placed[1..], key)
  {
  }

  lemma NoneWithKey(key: string, keys: seq<string>)
    ensures WithKey([], key) == [] && WithKeyIn([], keys) == []
  {
  }

  /** What the placed targets under several keys hold together is what the first key's targets hold and
      what the others' hold. */
  lemma {:induction false} SplitOffKey(placed: seq<Placed>, key: string, keys: seq<string>)
    requires key !in keys
    ensures TargetBag(WithKeyIn(placed, [key] + keys)) ==
            TargetBag(WithKey(placed, key)) + TargetBag(WithKeyIn(placed, keys))
  {
    hide *;
    BagOfNone();
    if placed == [] {
      NoneWithKey(key, [key] + keys);
      NoneWithKey(key, keys);
    } else {
      SplitOffKey(placed[1..], key, keys);
      WithKeyInHead(placed, [key] + keys);
      WithKeyInHead(placed, keys);
      WithKeyHead(placed, key);
      var k := KeyOf(placed[0]);
      var head := [placed[0]];
      BagAppend(if k in [key] + keys then head else [], WithKeyIn(placed[1..], [key] + keys));
      BagAppend(if k in keys then head else [], WithKeyIn(placed[1..], keys));
      BagAppend(if k == key then head else [], WithKey(placed[1..], key));
    }
  }

  /** The lists of a mapping one after the other. */
  ghost function Concatenated(mapping: map<string, seq<Target>>, order: seq<string>): seq<Target>
    requires forall k :: k in order ==> k in mapping
  {
    if order == [] then [] else mapping[order[0]] + Concatenated(mapping, order[1..])
  }

  lemma {:induction false} ConcatenatedIs(mapping: map<string, seq<Target>>, placed: seq<Placed>, order: seq<string>)
    requires Files(mapping, placed) && Distinct(order) && forall k :: k in order ==> k in mapping
    ensures multiset(Concatenated(mapping, order)) == TargetBag(WithKeyIn(placed, order))
  {
    if order == [] {
      FilterNone(placed, p => KeyOf(p) in order);
    } else {
      ConcatenatedIs(mapping, placed, order[1..]);
      SplitOffKey(placed, order[0], order[1..]);
      assert order == [order[0]] + order[1..];
      assert mapping[order[0]] == TargetsFor(placed, order[0]);
      hide Files, WithKey, WithKeyIn, Map, Distinct;
    }
  }

  /** Nothing is lost and nothing doubled: in whatever order the groups are listed, together they hold
      one target per interface of every instance. */
  lemma Conservation(facts: Facts, ps: seq<InstanceWithNode>, mapping: map<string, seq<Target>>, order: seq<string>)
    requires forall p :: p in ps ==> KnownSubnets(facts, p)
    requires Files(mapping, PlaceAll(facts, ps))
    requires Distinct(order) && forall k :: k in order <==> k in mapping
    ensures multiset(Concatenated(mapping, order)) == multiset(InterfaceTargets(ps))
  {
    var placed := PlaceAll(facts, ps);
    ConcatenatedIs(mapping, placed, order);
    FilterAll(placed, p => KeyOf(p) in order);
    PlaceAllTargets(facts, ps);
  }

  lemma PlacedDistinct(facts: Facts, ps: seq<InstanceWithNode>)
    requires (forall p :: p in ps ==> KnownSubnets(facts, p)) && Distinct(InterfaceTargets(ps))
    ensures DistinctBy(PlaceAll(facts, ps), TargetOf)
  {
    hide PlaceAll, InterfaceTargets, KnownSubnets;
    var placed := PlaceAll(facts, ps);
    PlaceAllTargets(facts, ps);
    assert forall i :: 0 <= i < |placed| ==> TargetOf(placed[i]) == InterfaceTargets(ps)[i];
  }

  lemma SamePlace(placed: seq<Placed>, j: string, k: string, t: Target)
    requires DistinctBy(placed, TargetOf) && t in TargetsFor(placed, j) && t in TargetsFor(placed, k)
    ensures j == k
  {
    hide TargetsFor;
    var p := TargetComesFrom(placed, j, t);
    var q := TargetComesFrom(placed, k, t);
    var a, b :| 0 <= a < |placed| && 0 <= b < |placed| && placed[a] == p && placed[b] == q;
    assert TargetOf(placed[a]) == TargetOf(placed[b]);
  }

  /** If no two interfaces share subnet and address, no target is in two groups, nor twice in one. */
  lemma NoTargetTwice(facts: Facts, ps: seq<InstanceWithNode>, mapping: map<string, seq<Target>>)
    requires forall p :: p in ps ==> KnownSubnets(facts, p)
    requires Files(mapping, PlaceAll(facts, ps)) && Distinct(InterfaceTargets(ps))
    ensures forall k :: k in mapping ==> Distinct(mapping[k])
    ensures forall j, k, t :: j in mapping && k in mapping && t in mapping[j] && t in mapping[k] ==> j == k
  {
    hide PlaceAll, InterfaceTargets, KnownSubnets, TargetsFor, DistinctBy, Distinct, KeysOf;
    var placed := PlaceAll(facts, ps);
    PlacedDistinct(facts, ps);
    forall k | k in mapping ensures Distinct(mapping[k]) {
      DistinctWithin(placed, k);
    }
    forall j, k, t | j in mapping && k in mapping && t in mapping[j] && t in mapping[k] ensures j == k {
      SamePlace(placed, j, k, t);
    }
  }

  lemma DistinctWithin(placed: seq<Placed>, key: string)
    requires DistinctBy(placed, TargetOf)
    ensures Distinct(TargetsFor(placed, key))
  {
    FilterDistinctBy(placed, p => KeyOf(p) == key, TargetOf);
  }

  lemma TargetComesFrom(placed: seq<Placed>, key: string, t: Target) returns (p: Placed)
    requires t in TargetsFor(placed, key)
    ensures p == Placed(key, t) && p in placed
  {
    var i :| 0 <= i < |TargetsFor(placed, key)| && TargetsFor(placed, key)[i] == t;
    p := WithKey(placed, key)[i];
    FilterMembers(placed, p => KeyOf(p) == key, p);
  }

  lemma TargetsForMembers(placed: seq<Placed>, key: string, t: Target)
    ensures t in TargetsFor(placed, key) <==> Placed(key, t) in placed
  {
    var p := Placed(key, t);
    FilterMembers(placed, p => KeyOf(p) == key, p);
    if p in placed {
      assert p in WithKey(placed, key);
      var i :| 0 <= i < |WithKey(placed, key)| && WithKey(placed, key)[i] == p;
      assert TargetsFor(placed, key)[i] == t;
    }
    if t in TargetsFor(placed, key) {
      var q := TargetComesFrom(placed, key, t);
    }
  }

  lemma {:induction false} PlaceSomeMembers(facts: Facts, p: InstanceWithNode, j: nat, x: Placed)
    requires j <= |p.instance.interfaces| && KnownSubnets(facts, p)
    ensures x in PlaceSome(facts, p, j) <==> exists i :: i in p.instance.interfaces[..j] && x == PlaceOne(facts, p, i)
  {
    if j > 0 {
      PlaceSomeMembers(facts, p, j - 1, x);
      assert p.instance.interfaces[..j] == p.instance.interfaces[..j - 1] + [p.instance.interfaces[j - 1]];
    }
  }

  /** A target is filed exactly if it belongs to an interface of one of the instances. */
  lemma {:induction false} PlaceAllMembers(facts: Facts, ps: seq<InstanceWithNode>, x: Placed)
    requires forall p :: p in ps ==> KnownSubnets(facts, p)
    ensures x in PlaceAll(facts, ps) <==>
            exists p, i :: p in ps && i in p.instance.interfaces && x == PlaceOne(facts, p, i)
  {
    if ps != [] {
      var front, last := ps[..|ps| - 1], ps[|ps| - 1];
      PlaceAllMembers(facts, front, x);
      assert last in ps && ps == front + [last];
      var all := last.instance.interfaces;
      PlaceSomeMembers(facts, last, |all|, x);
      assert all[..|all|] == all;
    }
  }

  // Containment

  /** Somewhere in the text stands the part. */
  lemma ContainsIff(s: string, part: string)
    ensures Contains(s, part) <==> exists before, after :: s == before + part + after
  {
    if Contains(s, part) {
      var i :| 0 <= i <= |s| && MatchesAt(s, part, i);
      assert s == s[..i] + part + s[i + |part|..];
    }
    if before, after :| s == before + part + after {
      assert s[|before|..|before| + |part|] == part;
      assert MatchesAt(s, part, |before|);
    }
  }

  /** A provider id with "yandex" somewhere in it. */
  ghost predicate NamesYandex(id: string) {
    exists before, after :: id == before + "yandex" + after
  }

  lemma YandexIff(n: Node)
    ensures IsYandex(n) <==> NamesYandex(n.providerId)
  {
    ContainsIff(n.providerId, "yandex");
  }

  // Names of groups

  /** The name under which a service looks for its group; the service side does not truncate. */
  function ServiceGroupName(facts: Facts, prefix: string, network: string): string {
    prefix + facts.clusterName + network
  }

  lemma GroupKeyIs(facts: Facts, n: Node, network: string)
    ensures GroupKey(facts, n, network) == NodePrefix(n) + facts.clusterName + network
  {
  }

  /** The name in full: the annotated prefix, at most its first 36 bytes, the cluster and the network. */
  lemma GroupKeyInFull(facts: Facts, n: Node, network: string)
    ensures GroupKey(facts, n, network) ==
            (if "yandex.cpi.flant.com/target-group-name-prefix" !in n.annotations then ""
             else
               var prefix := n.annotations["yandex.cpi.flant.com/target-group-name-prefix"];
               if |prefix| <= 36 then prefix else prefix[..36]) + facts.clusterName + network
  {
    GroupKeyIs(facts, n, network);
  }

  /** A node and a service annotated with the same prefix meet exactly if the prefix is not cut. */
  lemma SamePrefixMeetsIffShort(facts: Facts, n: Node, network: string)
    requires "yandex.cpi.flant.com/target-group-name-prefix" in n.annotations
    ensures var prefix := n.annotations["yandex.cpi.flant.com/target-group-name-prefix"];
            GroupKey(facts, n, network) == prefix + facts.clusterName + network <==> |prefix| <= 36
  {
    var prefix := n.annotations[PREFIX_ANNOTATION];
    GroupKeyIs(facts, n, network);
    assert |GroupKey(facts, n, network)| == |NodePrefix(n)| + |facts.clusterName| + |network|;
    assert |ServiceGroupName(facts, prefix, network)| == |prefix| + |facts.clusterName| + |network|;
  }

  predicate EndsWith(s: string, end: string) {
    |end| <= |s| && s[|s| - |end|..] == end
  }

  /** Some prefixes make the names of two networks meet exactly if one of cluster and network ends with
      the other. */
  lemma NamesMeetIff(facts: Facts, m: string, n: string)
    ensures (exists p, q :: ServiceGroupName(facts, p, m) == ServiceGroupName(facts, q, n)) <==>
            EndsWith(facts.clusterName + m, facts.clusterName + n)
            || EndsWith(facts.clusterName + n, facts.clusterName + m)
  {
    var s, t := facts.clusterName + m, facts.clusterName + n;
    if p, q :| ServiceGroupName(facts, p, m) == ServiceGroupName(facts, q, n) {
      NameSplits(facts, p, m);
      NameSplits(facts, q, n);
      MeetingNamesEndAlike(p, s, q, t);
    }
    if EndsWith(s, t) {
      NameSplits(facts, "", m);
      NameSplits(facts, s[..|s| - |t|], n);
      assert ServiceGroupName(facts, "", m) == ServiceGroupName(facts, s[..|s| - |t|], n);
    }
    if EndsWith(t, s) {
      NameSplits(facts, t[..|t| - |s|], m);
      NameSplits(facts, "", n);
      assert ServiceGroupName(facts, t[..|t| - |s|], m) == ServiceGroupName(facts, "", n);
    }
  }

  lemma NameSplits(facts: Facts, p: string, m: string)
    ensures ServiceGroupName(facts, p, m) == p + (facts.clusterName + m)
  {
  }

  lemma MeetingNamesEndAlike(p: string, s: string, q: string, t: string)
    requires p + s == q + t
    ensures EndsWith(s, t) || EndsWith(t, s)
  {
    var whole := p + s;
    if |t| <= |s| {
      assert whole[|whole| - |t|..] == t && whole[|whole| - |t|..] == s[|s| - |t|..];
    } else {
      assert whole[|whole| - |s|..] == s && whole[|whole| - |s|..] == t[|t| - |s|..];
    }
  }

  /** With network ids of one length, a group name determines prefix and network. */
  lemma NameDeterminesParts(facts: Facts, p: string, m: string, q: string, n: string)
    requires |m| == |n| && p + facts.clusterName + m == q + facts.clusterName + n
    ensures p == q && m == n
  {
    assert ServiceGroupName(facts, p, m) == ServiceGroupName(facts, q, n);
    NamesMeetIff(facts, m, n);
    var s, t := facts.clusterName + m, facts.clusterName + n;
    assert s == t && s[|facts.clusterName|..] == m && t[|facts.clusterName|..] == n;
    var whole := p + facts.clusterName + m;
    assert whole[..|p|] == p && whole[..|q|] == q;
  }

  /** Without that, two different groups can share a name, whatever the cluster. */
  lemma NamesCanCollide(facts: Facts)
    ensures exists p, m, q, n :: (p, m) != (q, n)
              && ServiceGroupName(facts, p, m) == ServiceGroupName(facts, q, n)
  {
    var c := facts.clusterName;
    var m, n := c + "a" + c, "a" + c;
    if c == "" {
      m, n := "ba", "a";
    }
    assert EndsWith(c + m, c + n);
    NamesMeetIff(facts, m, n);
    var p, q :| ServiceGroupName(facts, p, m) == ServiceGroupName(facts, q, n);
    assert (p, m) != (q, n);
  }

  /** Every name that the grouping produces passes the clean-up filter of the same cluster. */
  lemma KeysContainCluster(facts: Facts, n: Node, network: string)
    ensures Contains(GroupKey(facts, n, network), facts.clusterName)
  {
    GroupKeyIs(facts, n, network);
    assert MatchesAt(GroupKey(facts, n, network), facts.clusterName, |NodePrefix(n)|);
  }

  /** A name that the grouping of another cluster produces passes, too, if any part of it does. */
  lemma AnyPartPasses(facts: Facts, other: Facts, n: Node, network: string)
    requires Contains(NodePrefix(n), facts.clusterName) || Contains(other.clusterName, facts.clusterName)
             || Contains(network, facts.clusterName)
    ensures Contains(GroupKey(other, n, network), facts.clusterName)
  {
    GroupKeyIs(other, n, network);
    var c, prefix := other.clusterName, NodePrefix(n);
    if Contains(prefix, facts.clusterName) {
      ContainsWithin("", prefix, c + network, facts.clusterName);
      assert "" + prefix + (c + network) == prefix + c + network;
    } else if Contains(c, facts.clusterName) {
      ContainsWithin(prefix, c, network, facts.clusterName);
    } else {
      ContainsWithin(prefix + c, network, "", facts.clusterName);
      assert prefix + c + network + "" == prefix + c + network;
    }
  }

  /** Of two clusters with nothing in common, one can produce names that the other one's clean-up takes. */
  lemma PrefixReachesOtherCluster(instances: map<string, Instance>, networks: map<string, string>)
    ensures var dev, prod := Facts("dev", instances, networks), Facts("prod", instances, networks);
            var n := Node("node", "yandex://node", map[PREFIX_ANNOTATION := "dev-"]);
            !Contains(prod.clusterName, dev.clusterName) && Contains(GroupKey(prod, n, "net"), dev.clusterName)
  {
    var dev, prod := Facts("dev", instances, networks), Facts("prod", instances, networks);
    var n := Node("node", "yandex://node", map[PREFIX_ANNOTATION := "dev-"]);
    assert NodePrefix(n) == "dev-" && MatchesAt("dev-", "dev", 0);
    forall i | 0 <= i <= 4 ensures !MatchesAt("prod", "dev", i) {
      if i + 3 <= 4 { assert "prod"[i..i + 3][0] == "prod"[i]; }
    }
    AnyPartPasses(dev, prod, n, "net");
  }

  /** All names that the grouping of another cluster can produce pass exactly if that cluster's name
      contains the name of this one. */
  lemma OtherClustersPassIff(facts: Facts, other: Facts)
    ensures (forall n, network :: Contains(GroupKey(other, n, network), facts.clusterName))
       <==> Contains(other.clusterName, facts.clusterName)
  {
    if Contains(other.clusterName, facts.clusterName) {
      forall n, network ensures Contains(GroupKey(other, n, network), facts.clusterName) {
        AnyPartPasses(facts, other, n, network);
      }
    } else {
      GroupKeyIs(other, Node("", "", map[]), "");
      assert GroupKey(other, Node("", "", map[]), "") == other.clusterName;
    }
  }

  lemma ContainsWithin(before: string, s: string, after: string, part: string)
    requires Contains(s, part)
    ensures Contains(before + s + after, part)
  {
    var i :| 0 <= i <= |s| && MatchesAt(s, part, i);
    var whole := before + s + after;
    assert whole[|before| + i..|before| + i + |part|] == s[i..i + |part|];
    assert MatchesAt(whole, part, |before| + i);
  }
}
