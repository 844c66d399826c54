/**
 The kill switch's rule generators: nftables, where the first matching rule decides
 (client/internal/killswitch/killswitch_linux.go), and pf, where the last one does
 (client/internal/killswitch/killswitch_darwin.go). Rules are values rather than text.
 */
module KillSwitch {
  import opened Basics
  import opened Routes
  import opened Transport

  /** What stays reachable. `None` stands for an entry that is not valid. */
  datatype Policy = Policy(
    iface: string,
    endpoints: seq<Option<AddrPort>>,
    localNetworks: seq<Option<Prefix>>,
    allowLAN: bool)

  datatype Interface = Loopback | Device(name: string)

  datatype Protocol = Tcp | Udp | Other

  /** An outgoing packet. `tracked` means it belongs to a flow that was already let through. */
  datatype Packet = Packet(out: Interface, dst: IP, proto: Protocol, sport: nat, dport: nat, tracked: bool)

  const MULTICAST_V4: Prefix := Bits(false, [true, true, true, false])
  const BROADCAST: Prefix := Bits(false, Ones(32))
  const MULTICAST_V6: Prefix := Bits(true, Ones(8))

  function Ones(n: nat): seq<bool> {
    if n == 0 then [] else [true] + Ones(n - 1)
  }

  // ------------------------------------------------------------------ the policy

  predicate IsTransport(p: Policy, k: Packet) {
    k.proto == Udp && Some(AddrPort(k.dst, k.dport)) in p.endpoints
  }

  predicate IsLocal(p: Policy, k: Packet) {
    p.allowLAN && (
      || (exists i :: 0 <= i < |p.localNetworks| && p.localNetworks[i].Some?
                      && Matches(p.localNetworks[i].value, k.dst))
      || Matches(MULTICAST_V4, k.dst) || Matches(BROADCAST, k.dst) || Matches(MULTICAST_V6, k.dst))
  }

  /** What the policy lets out: loopback, the tunnel, its own transport and, if asked, the local network. */
  predicate Permits(p: Policy, k: Packet) {
    k.out == Loopback || k.out == Device(p.iface) || IsTransport(p, k) || IsLocal(p, k)
  }

  /** The DHCP traffic each generator lets out; they do not agree on it. */
  predicate NftDhcp(k: Packet) {
    k.proto == Udp && k.dport in {67, 68, 546}
  }

  predicate PfDhcp(k: Packet) {
    k.proto == Udp && ((k.sport == 68 && k.dport == 67) || (k.sport == 546 && k.dport == 547))
  }

  // ------------------------------------------------------------------------ rules

  datatype Match =
    | Everything
    | Tracked
    | On(out: Interface)
    | UdpPorts(ports: set<nat>)
    | UdpFlow(sport: nat, dport: nat)
    | UdpTo(dst: IP, dport: nat)
    | To(net: Prefix)
    | TcpOrUdp

  predicate Hits(m: Match, k: Packet) {
    match m
    case Everything => true
    case Tracked => k.tracked
    case On(out) => k.out == out
    case UdpPorts(ports) => k.proto == Udp && k.dport in ports
    case UdpFlow(sport, dport) => k.proto == Udp && k.sport == sport && k.dport == dport
    case UdpTo(dst, dport) => k.proto == Udp && k.dst == dst && k.dport == dport
    case To(net) => Matches(net, k.dst)
    case TcpOrUdp => k.proto == Tcp || k.proto == Udp
  }

  datatype Rule = Rule(when: Match, pass: bool)

  /** First match decides; a chain that matches nothing drops. */
  predicate FirstMatch(rules: seq<Rule>, k: Packet) {
    rules != [] && if Hits(rules[0].when, k) then rules[0].pass else FirstMatch(rules[1..], k)
  }

  /** Last match decides; a ruleset that matches nothing passes. */
  predicate LastMatch(rules: seq<Rule>, k: Packet) {
    rules == [] ||
    if Hits(rules[|rules| - 1].when, k) then rules[|rules| - 1].pass else LastMatch(rules[..|rules| - 1], k)
  }

  function Passes(ms: seq<Match>): (rules: seq<Rule>)
    ensures |rules| == |ms|
  {
    seq(|ms|, i requires 0 <= i < |ms| => Rule(ms[i], true))
  }

  ghost predicate Any(ms: seq<Match>, k: Packet) {
    exists i :: 0 <= i < |ms| && Hits(ms[i], k)
  }

  lemma AnyConcat(a: seq<Match>, b: seq<Match>, k: Packet)
    ensures Any(a + b, k) <==> Any(a, k) || Any(b, k)
  {
    if i :| 0 <= i < |a| && Hits(a[i], k) {
      assert Hits((a + b)[i], k);
    }
    if i :| 0 <= i < |b| && Hits(b[i], k) {
      assert Hits((a + b)[|a| + i], k);
    }
  }

  // -------------------------------------------------------------------- nftables

  /** The transport rules of one address family, in order. */
  function TransportMatches(endpoints: seq<Option<AddrPort>>, v6: bool): seq<Match> {
    if endpoints == [] then []
    else
      var front, last := TransportMatches(endpoints[..|endpoints| - 1], v6), endpoints[|endpoints| - 1];
      if last.Some? && last.value.ip.v6 == v6 then front + [UdpTo(last.value.ip, last.value.port)] else front
  }

  function LocalMatches(nets: seq<Option<Prefix>>): seq<Match> {
    if nets == [] then []
    else
      var front, last := LocalMatches(nets[..|nets| - 1]), nets[|nets| - 1];
      if last.Some? then front + [To(last.value)] else front
  }

  function LanMatches(p: Policy): seq<Match> {
    if p.allowLAN then LocalMatches(p.localNetworks) + [To(MULTICAST_V4), To(BROADCAST), To(MULTICAST_V6)] else []
  }

  function NftHead(iface: string): seq<Match> {
    [Tracked, On(Loopback), On(Device(iface)), UdpPorts({67, 68}), UdpPorts({546})]
  }

  function NftMatches(p: Policy): seq<Match> {
    NftHead(p.iface) + TransportMatches(p.endpoints, false) + TransportMatches(p.endpoints, true) + LanMatches(p)
  }

  function NftRules(p: Policy): seq<Rule> {
    Passes(NftMatches(p)) + [Rule(TcpOrUdp, false)]
  }

  method BuildChains(p: Policy) returns (rules: seq<Rule>)
    ensures rules == NftRules(p)
  {
    var b := [Tracked, On(Loopback), On(Device(p.iface)), UdpPorts({67, 68}), UdpPorts({546})];
    var v4: seq<Match>, v6: seq<Match> := [], [];
    for i := 0 to |p.endpoints|
      invariant v4 == TransportMatches(p.endpoints[..i], false)
      invariant v6 == TransportMatches(p.endpoints[..i], true)
    {
      assert p.endpoints[..i + 1][..i] == p.endpoints[..i];
      var ep := p.endpoints[i];
      if ep.None? {
        continue;
      }
      var rule := UdpTo(ep.value.ip, ep.value.port);
      if ep.value.ip.v6 {
        v6 := v6 + [rule];
      } else {
        v4 := v4 + [rule];
      }
    }
    assert p.endpoints[..|p.endpoints|] == p.endpoints;
    b := b + v4 + v6;
    if p.allowLAN {
      var lan := LocalRules(p.localNetworks);
      b := b + (lan + [To(MULTICAST_V4), To(BROADCAST), To(MULTICAST_V6)]);
    }
    rules := Passes(b) + [Rule(TcpOrUdp, false)];
  }

  method LocalRules(nets: seq<Option<Prefix>>) returns (out: seq<Match>)
    ensures out == LocalMatches(nets)
  {
    out := [];
    for i := 0 to |nets|
      invariant out == LocalMatches(nets[..i])
    {
      assert nets[..i + 1][..i] == nets[..i];
      if nets[i].Some? {
        out := out + [To(nets[i].value)];
      }
    }
    assert nets[..|nets|] == nets;
  }

  // -------------------------------------------------------------------------- pf

  function PfTransport(endpoints: seq<Option<AddrPort>>): seq<Match> {
    if endpoints == [] then []
    else
      var front, last := PfTransport(endpoints[..|endpoints| - 1]), endpoints[|endpoints| - 1];
      if last.Some? then front + [UdpTo(last.value.ip, last.value.port)] else front
  }

  function PfMatches(p: Policy): seq<Match> {
    [On(Loopback), On(Device(p.iface)), UdpFlow(68, 67), UdpFlow(546, 547)] + PfTransport(p.endpoints) + LanMatches(p)
  }

  function PfRules(p: Policy): seq<Rule> {
    [Rule(Everything, false)] + Passes(PfMatches(p))
  }

  method BuildRules(p: Policy) returns (rules: seq<Rule>)
    ensures rules == PfRules(p)
  {
    var b := [On(Loopback), On(Device(p.iface)), UdpFlow(68, 67), UdpFlow(546, 547)];
    var transport: seq<Match> := [];
    for i := 0 to |p.endpoints|
      invariant transport == PfTransport(p.endpoints[..i])
    {
      assert p.endpoints[..i + 1][..i] == p.endpoints[..i];
      var ep := p.endpoints[i];
      if ep.None? {
        continue;
      }
      transport := transport + [UdpTo(ep.value.ip, ep.value.port)];
    }
    assert p.endpoints[..|p.endpoints|] == p.endpoints;
    b := b + transport;
    if p.allowLAN {
      var lan := LocalRules(p.localNetworks);
      b := b + (lan + [To(MULTICAST_V4), To(BROADCAST), To(MULTICAST_V6)]);
    }
    rules := [Rule(Everything, false)] + Passes(b);
  }

  // ------------------------------------------------------------------- semantics

  lemma {:induction false} FirstMatchOfPasses(ms: seq<Match>, k: Packet)
    ensures FirstMatch(Passes(ms) + [Rule(TcpOrUdp, false)], k) <==> Any(ms, k)
  {
    var rules := Passes(ms) + [Rule(TcpOrUdp, false)];
    if ms == [] {
      assert rules[1..] == [];
    } else {
      assert rules[1..] == Passes(ms[1..]) + [Rule(TcpOrUdp, false)];
      FirstMatchOfPasses(ms[1..], k);
      assert ms == [ms[0]] + ms[1..];
      AnyConcat([ms[0]], ms[1..], k);
      assert Any([ms[0]], k) <==> Hits([ms[0]][0], k);
    }
  }

  lemma {:induction false} LastMatchOfPasses(ms: seq<Match>, k: Packet)
    ensures LastMatch([Rule(Everything, false)] + Passes(ms), k) <==> Any(ms, k)
  {
    var rules := [Rule(Everything, false)] + Passes(ms);
    if ms != [] {
      var front, last := ms[..|ms| - 1], ms[|ms| - 1];
      assert rules[..|rules| - 1] == [Rule(Everything, false)] + Passes(front);
      LastMatchOfPasses(front, k);
      assert ms == front + [last];
      AnyConcat(front, [last], k);
      assert Any([last], k) <==> Hits([last][0], k);
    }
  }

  lemma {:induction false} AnyTransport(endpoints: seq<Option<AddrPort>>, v6: bool, k: Packet)
    ensures Any(TransportMatches(endpoints, v6), k) <==>
            k.proto == Udp && k.dst.v6 == v6 && Some(AddrPort(k.dst, k.dport)) in endpoints
  {
    if endpoints != [] {
      var front, last := endpoints[..|endpoints| - 1], endpoints[|endpoints| - 1];
      assert endpoints == front + [last];
      AnyTransport(front, v6, k);
      if last.Some? {
        var m := UdpTo(last.value.ip, last.value.port);
        AnyConcat(TransportMatches(front, v6), [m], k);
        assert Any([m], k) <==> Hits([m][0], k);
      }
    }
  }

  lemma {:induction false} AnyPfTransport(endpoints: seq<Option<AddrPort>>, k: Packet)
    ensures Any(PfTransport(endpoints), k) <==> k.proto == Udp && Some(AddrPort(k.dst, k.dport)) in endpoints
  {
    if endpoints != [] {
      var front, last := endpoints[..|endpoints| - 1], endpoints[|endpoints| - 1];
      assert endpoints == front + [last];
      AnyPfTransport(front, k);
      if last.Some? {
        var m := UdpTo(last.value.ip, last.value.port);
        AnyConcat(PfTransport(front), [m], k);
        assert Any([m], k) <==> Hits([m][0], k);
      }
    }
  }

  ghost predicate InSome(nets: seq<Option<Prefix>>, a: IP) {
    exists i :: 0 <= i < |nets| && nets[i].Some? && Matches(nets[i].value, a)
  }

  lemma {:induction false} AnyLocal(nets: seq<Option<Prefix>>, k: Packet)
    ensures Any(LocalMatches(nets), k) <==> InSome(nets, k.dst)
  {
    if nets != [] {
      var front, last := nets[..|nets| - 1], nets[|nets| - 1];
      assert nets == front + [last];
      AnyLocal(front, k);
      assert InSome(nets, k.dst) <==> InSome(front, k.dst) || (last.Some? && Matches(last.value, k.dst));
      if last.Some? {
        AnyConcat(LocalMatches(front), [To(last.value)], k);
        assert Any([To(last.value)], k) <==> Hits([To(last.value)][0], k);
      }
    }
  }

  lemma AnyLan(p: Policy, k: Packet)
    ensures Any(LanMatches(p), k) <==> IsLocal(p, k)
  {
    if p.allowLAN {
      var discovery := [To(MULTICAST_V4), To(BROADCAST), To(MULTICAST_V6)];
      AnyConcat(LocalMatches(p.localNetworks), discovery, k);
      AnyLocal(p.localNetworks, k);
      assert Any(discovery, k) <==> Hits(discovery[0], k) || Hits(discovery[1], k) || Hits(discovery[2], k);
    }
  }

  /** The nftables chain accepts a packet exactly when it is tracked, permitted, or DHCP by its destination port. */
  lemma NftMeaning(p: Policy, k: Packet)
    ensures FirstMatch(NftRules(p), k) <==> k.tracked || Permits(p, k) || NftDhcp(k)
  {
    var head, v4, v6, lan := NftHead(p.iface), TransportMatches(p.endpoints, false),
                             TransportMatches(p.endpoints, true), LanMatches(p);
    FirstMatchOfPasses(NftMatches(p), k);
    AnyConcat(head, v4, k);
    AnyConcat(head + v4, v6, k);
    AnyConcat(head + v4 + v6, lan, k);
    AnyTransport(p.endpoints, false, k);
    AnyTransport(p.endpoints, true, k);
    AnyLan(p, k);
    assert Any(head, k) <==>
      (Hits(head[0], k) || Hits(head[1], k) || Hits(head[2], k) || Hits(head[3], k) || Hits(head[4], k));
  }

  /** The pf ruleset passes a packet exactly when it is permitted, or DHCP by both its ports. */
  lemma PfMeaning(p: Policy, k: Packet)
    ensures LastMatch(PfRules(p), k) <==> Permits(p, k) || PfDhcp(k)
  {
    var head, eps, lan := [On(Loopback), On(Device(p.iface)), UdpFlow(68, 67), UdpFlow(546, 547)],
                          PfTransport(p.endpoints), LanMatches(p);
    LastMatchOfPasses(PfMatches(p), k);
    AnyConcat(head, eps, k);
    AnyConcat(head + eps, lan, k);
    AnyPfTransport(p.endpoints, k);
    AnyLan(p, k);
    assert Any(head, k) <==> Hits(head[0], k) || Hits(head[1], k) || Hits(head[2], k) || Hits(head[3], k);
  }

  /**
   For every policy and every packet of a new flow, the two generators mean the same thing
   if and only if the policy permits the packet or they agree on it as DHCP.
   */
  lemma GeneratorsAgreeIff(p: Policy, k: Packet)
    requires !k.tracked
    ensures (FirstMatch(NftRules(p), k) <==> LastMatch(PfRules(p), k)) <==>
            (Permits(p, k) || (NftDhcp(k) <==> PfDhcp(k)))
    ensures !NftDhcp(k) && !PfDhcp(k) ==>
            (FirstMatch(NftRules(p), k) <==> Permits(p, k)) && (LastMatch(PfRules(p), k) <==> Permits(p, k))
  {
    NftMeaning(p, k);
    PfMeaning(p, k);
  }

  /** They do differ on DHCP: nftables lets out a DHCPv6 packet to the client port that pf refuses. */
  lemma GeneratorsDifferOnDhcp(p: Policy, k: Packet)
    requires !k.tracked && !Permits(p, k) && k.proto == Udp && k.sport == 547 && k.dport == 546
    ensures FirstMatch(NftRules(p), k) && !LastMatch(PfRules(p), k)
  {
    NftMeaning(p, k);
    PfMeaning(p, k);
  }

  function AllValid(targets: seq<AddrPort>): (eps: seq<Option<AddrPort>>)
    ensures forall e :: e in eps <==> e.Some? && e.value in targets
  {
    if targets == [] then [] else [Some(targets[0])] + AllValid(targets[1..])
  }

  /** The policy's endpoints are exactly the addresses the peers are reached at. */
  ghost predicate Covers(p: Policy, peers: map<Uuid, PeerPath>) {
    forall t :: Some(t) in p.endpoints <==> Contacts(peers, t)
  }

  /**
   The lock is never permanent: under a policy that covers the peers, every datagram to a
   peer's transport address (the relay's, when it is proxied) gets out on both platforms.
   */
  lemma TransportGetsOut(p: Policy, peers: map<Uuid, PeerPath>, d: Uuid, k: Packet)
    requires Covers(p, peers)
    requires d in peers && Target(peers[d]) == Some(AddrPort(k.dst, k.dport)) && k.proto == Udp
    ensures FirstMatch(NftRules(p), k) && LastMatch(PfRules(p), k)
  {
    assert Contacts(peers, AddrPort(k.dst, k.dport));
    NftMeaning(p, k);
    PfMeaning(p, k);
  }
}
