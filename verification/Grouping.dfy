/**
 Which target goes into which group: one target per interface of every Yandex instance, filed under
 node prefix, cluster name and network (pkg/cloudprovider/yandex/load_balancer_tg_controller.go:101-192).
 */
module Grouping {
  import opened Seqs
  import opened Cloud

  datatype Interface = Interface(subnetId: string, address: string)
  datatype Instance = Instance(interfaces: seq<Interface>)
  datatype Node = Node(name: string, providerId: string, annotations: map<string, string>)
  datatype InstanceWithNode = InstanceWithNode(instance: Instance, node: Node)

  /** What the controller looks up elsewhere: its configuration, instances by name, subnets' networks. */
  datatype Facts = Facts(clusterName: string, instances: map<string, Instance>, networks: map<string, string>)

  const PREFIX_ANNOTATION := "yandex.cpi.flant.com/target-group-name-prefix"
  const PREFIX_LIMIT := 36

  /** Strings are sequences of bytes here, as for Go's len and slicing. */
  function TruncateAnnotationValue(value: string): string {
    if |value| > PREFIX_LIMIT then value[..PREFIX_LIMIT] else value
  }

  predicate MatchesAt(s: string, part: string, i: nat) {
    i + |part| <= |s| && s[i..i + |part|] == part
  }

  predicate Contains(s: string, part: string) {
    exists i :: 0 <= i <= |s| && MatchesAt(s, part, i)
  }

  predicate IsYandex(n: Node) { Contains(n.providerId, "yandex") }

  /** The part of a group's name that a node decides, cut if need be. */
  function NodePrefix(n: Node): string {
    if PREFIX_ANNOTATION in n.annotations then TruncateAnnotationValue(n.annotations[PREFIX_ANNOTATION]) else ""
  }

  function GroupKey(facts: Facts, n: Node, network: string): string {
    NodePrefix(n) + (facts.clusterName + network)
  }

  /** A target together with the group it is filed under. */
  datatype Placed = Placed(key: string, target: Target)

  function KeyOf(p: Placed): string { p.key }
  function TargetOf(p: Placed): Target { p.target }

  predicate KnownSubnets(facts: Facts, p: InstanceWithNode) {
    forall i :: i in p.instance.interfaces ==> i.subnetId in facts.networks
  }

  ghost function PlaceOne(facts: Facts, p: InstanceWithNode, i: Interface): Placed
    requires i.subnetId in facts.networks
  {
    Placed(GroupKey(facts, p.node, facts.networks[i.subnetId]), Target(i.subnetId, i.address))
  }

  /** The targets of the first j interfaces of one instance. */
  ghost function PlaceSome(facts: Facts, p: InstanceWithNode, j: nat): seq<Placed>
    requires j <= |p.instance.interfaces| &&
             forall k :: 0 <= k < j ==> p.instance.interfaces[k].subnetId in facts.networks
  {
    if j == 0 then [] else PlaceSome(facts, p, j - 1) + [PlaceOne(facts, p, p.instance.interfaces[j - 1])]
  }

  /** The targets of all interfaces of all instances, in the order in which they are visited. */
  ghost function PlaceAll(facts: Facts, ps: seq<InstanceWithNode>): seq<Placed>
    requires forall p :: p in ps ==> KnownSubnets(facts, p)
  {
    if ps == [] then [] else
    assert KnownSubnets(facts, ps[|ps| - 1]);
    PlaceAll(facts, ps[..|ps| - 1]) + PlaceSome(facts, ps[|ps| - 1], |ps[|ps| - 1].instance.interfaces|)
  }

  ghost function WithKey(placed: seq<Placed>, key: string): seq<Placed> {
    Filter(placed, p => KeyOf(p) == key)
  }

  /** The targets filed under a key, in visiting order. */
  ghost function TargetsFor(placed: seq<Placed>, key: string): seq<Target> {
    Map(WithKey(placed, key), TargetOf)
  }

  ghost function KeysOf(placed: seq<Placed>): set<string> { set p | p in placed :: p.key }

  /** The mapping files every target under its key and nothing else. */
  ghost predicate Files(mapping: map<string, seq<Target>>, placed: seq<Placed>) {
    && mapping.Keys == KeysOf(placed)
    && (forall k :: k in mapping ==> mapping[k] == TargetsFor(placed, k))
  }

  lemma TargetsForSnoc(placed: seq<Placed>, p: Placed, key: string)
    ensures TargetsFor(placed + [p], key) == TargetsFor(placed, key) + if p.key == key then [p.target] else []
    ensures p.key !in KeysOf(placed) ==> TargetsFor(placed, p.key) == []
  {
    FilterAppend(placed, [p], q => KeyOf(q) == key);
    assert WithKey(placed + [p], key) == WithKey(placed, key) + if p.key == key then [p] else [];
    if p.key !in KeysOf(placed) {
      FilterNone(placed, q => KeyOf(q) == p.key);
      assert WithKey(placed, p.key) == [];
    }
  }

  lemma KeysSnoc(placed: seq<Placed>, p: Placed)
    ensures KeysOf(placed + [p]) == KeysOf(placed) + {p.key}
  {
    assert p in placed + [p];
    forall k | k in KeysOf(placed) ensures k in KeysOf(placed + [p]) {
      var q :| q in placed && q.key == k;
      assert q in placed + [p];
    }
  }

  lemma FileOneMore(mapping: map<string, seq<Target>>, placed: seq<Placed>, p: Placed)
    requires Files(mapping, placed)
    ensures Files(mapping[p.key := (if p.key in mapping then mapping[p.key] else []) + [p.target]], placed + [p])
  {
    hide KeysOf, TargetsFor;
    KeysSnoc(placed, p);
    TargetsForSnoc(placed, p, p.key);
    forall k | k in mapping && k != p.key ensures TargetsFor(placed + [p], k) == mapping[k] {
      TargetsForSnoc(placed, p, k);
    }
  }

  /** How a lookup outside the target group service can turn out. */
  datatype Mapping = Mapped(mapping: map<string, seq<Target>>) | MappingFailed

  /** The inner loop: file the interfaces of one instance after what is already filed. */
  method FileInterfaces(api: CloudApi, facts: Facts, p: InstanceWithNode, filed: map<string, seq<Target>>,
                        ghost placed: seq<Placed>)
    returns (r: Mapping)
    requires Files(filed, placed)
    modifies api`faults
    ensures api.faults >= old(api.faults)
    ensures r.Mapped? ==>
              KnownSubnets(facts, p) && Files(r.mapping, placed + PlaceSome(facts, p, |p.instance.interfaces|))
    ensures api.faults == old(api.faults) && KnownSubnets(facts, p) ==> r.Mapped?
  {
    hide Files, Contains;
    var mapping := filed;
    assert placed + [] == placed;
    for j := 0 to |p.instance.interfaces|
      invariant api.faults >= old(api.faults)
      invariant forall k :: 0 <= k < j ==> p.instance.interfaces[k].subnetId in facts.networks
      invariant Files(mapping, placed + PlaceSome(facts, p, j))
    {
      var iface := p.instance.interfaces[j];
      var answered := api.Ask();
      if !answered || iface.subnetId !in facts.networks {
        return MappingFailed;
      }
      var key := facts.clusterName + facts.networks[iface.subnetId];
      if PREFIX_ANNOTATION in p.node.annotations {
        key := TruncateAnnotationValue(p.node.annotations[PREFIX_ANNOTATION]) + key;
      }
      assert key == GroupKey(facts, p.node, facts.networks[iface.subnetId]);
      FileOneMore(mapping, placed + PlaceSome(facts, p, j), PlaceOne(facts, p, iface));
      mapping := mapping[key :=
        (if key in mapping then mapping[key] else []) + [Target(iface.subnetId, iface.address)]];
      assert placed + PlaceSome(facts, p, j + 1) == placed + PlaceSome(facts, p, j) + [PlaceOne(facts, p, iface)];
    }
    r := Mapped(mapping);
  }

  lemma PlaceAllNext(facts: Facts, ps: seq<InstanceWithNode>, i: nat)
    requires i < |ps| && (forall p :: p in ps[..i] ==> KnownSubnets(facts, p)) && KnownSubnets(facts, ps[i])
    ensures forall p :: p in ps[..i + 1] ==> KnownSubnets(facts, p)
    ensures PlaceAll(facts, ps[..i + 1]) ==
            PlaceAll(facts, ps[..i]) + PlaceSome(facts, ps[i], |ps[i].instance.interfaces|)
  {
    assert ps[..i + 1] == ps[..i] + [ps[i]];
    assert ps[..i + 1][..i] == ps[..i];
    hide KnownSubnets, PlaceSome;
  }

  lemma FiledIffPlaced(mapping: map<string, seq<Target>>, placed: seq<Placed>)
    requires Files(mapping, placed)
    ensures |mapping| == 0 <==> placed == []
  {
    if placed != [] {
      assert placed[0] in placed && placed[0].key in mapping;
    } else {
      assert mapping == map[];
    }
  }

  method ConstructTgNameToTargetMap(api: CloudApi, facts: Facts, instances: seq<InstanceWithNode>) returns (r: Mapping)
    modifies api`faults
    ensures api.faults >= old(api.faults)
    ensures r.Mapped? ==>
      && (forall p :: p in instances ==> KnownSubnets(facts, p))
      && Files(r.mapping, PlaceAll(facts, instances)) && PlaceAll(facts, instances) != []
    ensures (api.faults == old(api.faults) && (forall p :: p in instances ==> KnownSubnets(facts, p))
             && PlaceAll(facts, instances) != []) ==> r.Mapped?
  {
    var mapping: map<string, seq<Target>> := map[];
    assert PlaceAll(facts, []) == [] && Files(mapping, []);
    assert instances[..0] == [];
    hide Files, KnownSubnets, PlaceAll;
    for i := 0 to |instances|
      invariant api.faults >= old(api.faults)
      invariant forall p :: p in instances[..i] ==> KnownSubnets(facts, p)
      invariant Files(mapping, PlaceAll(facts, instances[..i]))
    {
      r := FileInterfaces(api, facts, instances[i], mapping, PlaceAll(facts, instances[..i]));
      if r.MappingFailed? {
        assert instances[i] in instances;
        return;
      }
      mapping := r.mapping;
      PlaceAllNext(facts, instances, i);
    }
    assert instances[..|instances|] == instances;
    FiledIffPlaced(mapping, PlaceAll(facts, instances));
    if |mapping| == 0 {
      return MappingFailed;
    }
    r := Mapped(mapping);
  }
}
