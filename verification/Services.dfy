/** Services and the names of their balancers (pkg/cloudprovider/yandex/load_balancer.go:104-111, 130-171). */
module Services {
  import opened Seqs
  import opened Cloud

  datatype ServiceProtocol = ServiceTCP | ServiceUDP | ServiceSCTP
  datatype ServicePort = ServicePort(name: string, protocol: ServiceProtocol, port: int, nodePort: int)

  /** A service with the parameters that its annotations and the configuration give it. */
  datatype Service = Service(uid: string, isLoadBalancer: bool, deleting: bool, ports: seq<ServicePort>,
                             internal: bool, groupPrefix: string, groupNetwork: string, healthCheck: HealthCheck)

  predicate IsActive(s: Service) { s.isLoadBalancer && !s.deleting }

  // Names

  const NAME_LIMIT := 32

  function IsNotDash(c: char): bool { c != '-' }

  function DefaultLoadBalancerName(uid: string): string {
    var ret := Filter("a" + uid, IsNotDash);
    if |ret| > NAME_LIMIT then ret[..NAME_LIMIT] else ret
  }

  function ActiveNames(services: seq<Service>): set<string> {
    set s | s in services && IsActive(s) :: DefaultLoadBalancerName(s.uid)
  }

  predicate IsHexDigit(c: char) { '0' <= c <= '9' || 'a' <= c <= 'f' || 'A' <= c <= 'F' }

  /** The canonical text of a UUID: 8-4-4-4-12 hexadecimal digits (section 4 of RFC 9562). */
  predicate IsUuid(u: string) {
    && |u| == 36 && u[8] == '-' && u[13] == '-' && u[18] == '-' && u[23] == '-'
    && forall i :: 0 <= i < 36 && i != 8 && i != 13 && i != 18 && i != 23 ==> IsHexDigit(u[i])
  }

  function HexDigits(u: string): (digits: string)
    requires IsUuid(u)
    ensures |digits| == 32
  {
    u[..8] + u[9..13] + u[14..18] + u[19..23] + u[24..]
  }

  /** A group of digits up to the next dash. */
  lemma DigitsThenDash(u: string, i: nat, j: nat)
    requires i < j < |u| && u[j] == '-' && forall k :: i <= k < j ==> IsHexDigit(u[k])
    ensures Filter(u[i..], IsNotDash) == u[i..j] + Filter(u[j + 1..], IsNotDash)
  {
    assert forall c :: IsHexDigit(c) ==> IsNotDash(c);
    assert Filter(u[j..], IsNotDash) == Filter(u[j + 1..], IsNotDash) by {
      assert u[j..][1..] == u[j + 1..];
    }
    FilterAll(u[i..j], IsNotDash);
    hide *;
    FilterAppend(u[i..j], u[j..], IsNotDash);
    assert u[i..] == u[i..j] + u[j..];
  }

  lemma DigitGroup(u: string, i: nat, j: nat)
    requires IsUuid(u) && (i, j) in [(0, 8), (9, 13), (14, 18), (19, 23)]
    ensures Filter(u[i..], IsNotDash) == u[i..j] + Filter(u[j + 1..], IsNotDash)
  {
    DigitsThenDash(u, i, j);
  }

  lemma LastDigitGroup(u: string)
    requires IsUuid(u)
    ensures Filter(u[24..], IsNotDash) == u[24..]
  {
    FilterAll(u[24..], IsNotDash);
  }

  lemma WithoutDashes(u: string)
    requires IsUuid(u)
    ensures Filter(u, IsNotDash) == HexDigits(u)
  {
    assert |u| == 36;
    hide Filter, IsUuid;
    DigitGroup(u, 0, 8);
    DigitGroup(u, 9, 13);
    DigitGroup(u, 14, 18);
    DigitGroup(u, 19, 23);
    LastDigitGroup(u);
    assert u[0..] == u && u[0..8] == u[..8];
    calc {
      Filter(u, IsNotDash);
      u[..8] + (u[9..13] + (u[14..18] + (u[19..23] + u[24..])));
      HexDigits(u);
    }
  }

  lemma NameOfUuid(u: string)
    requires IsUuid(u)
    ensures DefaultLoadBalancerName(u) == "a" + HexDigits(u)[..31]
  {
    WithoutDashes(u);
    assert ("a" + u)[1..] == u;
    assert Filter("a" + u, IsNotDash) == "a" + HexDigits(u);
    hide Filter, IsUuid;
    assert ("a" + HexDigits(u))[..32] == "a" + HexDigits(u)[..31];
  }

  /** Two services share a balancer name exactly if their UIDs agree in the first 31 digits. */
  lemma NamesAgreeIffDigitsAgree(u: string, v: string)
    requires IsUuid(u) && IsUuid(v)
    ensures DefaultLoadBalancerName(u) == DefaultLoadBalancerName(v) <==> HexDigits(u)[..31] == HexDigits(v)[..31]
  {
    NameOfUuid(u);
    NameOfUuid(v);
    hide DefaultLoadBalancerName, IsUuid, HexDigits;
    assert ("a" + HexDigits(u)[..31])[1..] == HexDigits(u)[..31];
    assert ("a" + HexDigits(v)[..31])[1..] == HexDigits(v)[..31];
  }

  /** In particular the last digit does not count. */
  lemma LastDigitIgnored(u: string, digit: char)
    requires IsUuid(u) && IsHexDigit(digit)
    ensures IsUuid(u[35 := digit]) && DefaultLoadBalancerName(u[35 := digit]) == DefaultLoadBalancerName(u)
  {
    var v := u[35 := digit];
    assert HexDigits(v)[..31] == HexDigits(u)[..31] by {
      assert u[24..][..11] == v[24..][..11];
    }
    NamesAgreeIffDigitsAgree(u, v);
  }

  // Listener specifications

  function ToProtocol(p: ServiceProtocol): Protocol {
    match p
    case ServiceTCP => TCP
    case ServiceUDP => UDP
    case ServiceSCTP => ProtocolUnspecified
  }

  function Digit(i: nat): string
    requires i < 10
  {
    [('0' as int + i) as char]
  }

  function ListenerName(p: ServicePort, index: nat): string
    requires index < 10
  {
    if |p.name| == 0 then "listener-" + Digit(index) else p.name
  }

  const PORT_LIMIT := 10

  function ListenerFor(s: Service, index: nat): Listener
    requires index < |s.ports| <= PORT_LIMIT
  {
    var p := s.ports[index];
    Listener(ListenerName(p, index), ToProtocol(p.protocol), p.port, p.nodePort, s.internal)
  }

  ghost function ListenersFor(s: Service): seq<Listener>
    requires |s.ports| <= PORT_LIMIT
  {
    seq(|s.ports|, i requires 0 <= i < |s.ports| => ListenerFor(s, i))
  }

  method ListenerSpecs(s: Service) returns (specs: seq<Listener>)
    requires |s.ports| <= PORT_LIMIT
    ensures specs == ListenersFor(s)
    ensures |specs| == |s.ports| && forall i :: 0 <= i < |specs| ==>
      var l, p := specs[i], s.ports[i];
      && l.name == (if p.name == "" then "listener-" + ["0123456789"[i]] else p.name)
      && l.port == p.port && l.targetPort == p.nodePort && l.internal == s.internal
      && (l.protocol.TCP? <==> p.protocol.ServiceTCP?) && (l.protocol.UDP? <==> p.protocol.ServiceUDP?)
  {
    specs := [];
    for index := 0 to |s.ports|
      invariant |specs| == index && forall i :: 0 <= i < index ==> specs[i] == ListenerFor(s, i)
    {
      var svcPort := s.ports[index];
      var listenerName := svcPort.name;
      if |listenerName| == 0 {
        listenerName := "listener-" + Digit(index);
      }
      specs := specs +
        [Listener(listenerName, ToProtocol(svcPort.protocol), svcPort.port, svcPort.nodePort, s.internal)];
    }
  }

  function PortName(p: ServicePort): string { p.name }
  function PortSlot(p: ServicePort): (ServiceProtocol, int) { (p.protocol, p.port) }

  /** What the API server guarantees of a service: ports do not repeat, names do not repeat, and
      only a single port may go without a name. */
  predicate ValidPorts(ports: seq<ServicePort>) {
    && DistinctBy(ports, PortName) && DistinctBy(ports, PortSlot)
    && (|ports| > 1 ==> forall i :: 0 <= i < |ports| ==> ports[i].name != "")
  }

  /** Valid ports give listeners whose names and slots do not repeat. */
  lemma ValidPortsGiveValidListeners(s: Service)
    requires ValidPorts(s.ports) && |s.ports| <= PORT_LIMIT
    ensures DistinctBy(ListenersFor(s), NameOf) && DistinctBy(ListenersFor(s), SlotOf)
  {
    var specs := ListenersFor(s);
    forall i, j | 0 <= i < j < |specs|
      ensures NameOf(specs[i]) != NameOf(specs[j]) && SlotOf(specs[i]) != SlotOf(specs[j])
    {
      assert PortName(s.ports[i]) != PortName(s.ports[j]);
      assert PortSlot(s.ports[i]) != PortSlot(s.ports[j]);
    }
  }
}
