/** Where this host really sends tunnel traffic (client/internal/tunnel/exit.go). */
module Transport {
  import opened Basics
  import opened Routes

  /** A UDP address that may lack an IP. */
  datatype UdpAddr = UdpAddr(ip: Option<IP>, port: nat)

  /** `relay` is the relay's own address while the peer is proxied. */
  datatype PeerPath = PeerPath(remote: Option<UdpAddr>, relay: Option<UdpAddr>)

  datatype AddrPort = AddrPort(ip: IP, port: nat)

  /** 127.0.0.0/8, and ::1. */
  predicate IsLoopback(ip: IP) {
    if ip.v6 then ip.bits == seq(127, _ => false) + [true]
    else [false, true, true, true, true, true, true, true] <= ip.bits
  }

  /** The address a peer's packets leave for, if it is one the network can carry. */
  function Target(p: PeerPath): Option<AddrPort> {
    var addr := if p.relay.Some? then p.relay else p.remote;
    if addr.None? || addr.value.ip.None? || IsLoopback(addr.value.ip.value) then None
    else Some(AddrPort(addr.value.ip.value, addr.value.port % 0x1_0000))
  }

  /**
   A proxied peer is reached at exactly its relay's address and any other at exactly its remote one,
   unless that lacks an IP or is a loopback address; the port is a 16-bit one.
   */
  lemma TargetIff(p: PeerPath, t: AddrPort)
    ensures Target(p) == Some(t) <==>
      (exists addr: UdpAddr ::
         && (if p.relay.Some? then addr == p.relay.value else p.remote == Some(addr))
         && addr.ip == Some(t.ip) && !IsLoopback(t.ip) && t.port == addr.port % 0x1_0000)
  {
  }

  predicate Distinct<T(==)>(s: seq<T>) {
    forall i, j | 0 <= i < j < |s| :: s[i] != s[j]
  }

  ghost predicate Contacts(peers: map<Uuid, PeerPath>, target: AddrPort) {
    exists d :: d in peers && Target(peers[d]) == Some(target)
  }

  /** Every transport address with its port, each once, whatever order the peers are visited in. */
  method TransportAddrPorts(peers: map<Uuid, PeerPath>) returns (out: seq<AddrPort>)
    ensures Distinct(out)
    ensures forall t :: t in out <==> Contacts(peers, t)
    ensures forall d, ip | d in peers && peers[d].relay.Some?
                           && peers[d].relay.value.ip == Some(ip) && !IsLoopback(ip) ::
      AddrPort(ip, peers[d].relay.value.port % 0x1_0000) in out
    ensures forall d, ip | d in peers && peers[d].relay.None? && peers[d].remote.Some?
                           && peers[d].remote.value.ip == Some(ip) && !IsLoopback(ip) ::
      AddrPort(ip, peers[d].remote.value.port % 0x1_0000) in out
  {
    out := [];
    var seen: set<AddrPort> := {};
    var todo := peers.Keys;
    while todo != {}
      invariant todo <= peers.Keys
      invariant Distinct(out) && forall t :: t in seen <==> t in out
      invariant forall d | d in peers && d !in todo && Target(peers[d]).Some? :: Target(peers[d]).value in out
      invariant forall t | t in out :: Contacts(peers, t)
    {
      var d :| d in todo;
      todo := todo - {d};
      var target := Target(peers[d]);
      if target.Some? && target.value !in seen {
        assert Contacts(peers, target.value);
        seen := seen + {target.value};
        out := out + [target.value];
      }
    }
  }

  ghost predicate ContactsHost(peers: map<Uuid, PeerPath>, ip: IP) {
    exists d :: d in peers && Target(peers[d]).Some? && Target(peers[d]).value.ip == ip
  }

  /** Every transport address without its port, each once. */
  method TransportEndpoints(peers: map<Uuid, PeerPath>) returns (out: seq<IP>)
    ensures Distinct(out)
    ensures forall ip :: ip in out <==> ContactsHost(peers, ip)
    ensures forall d, ip | d in peers && peers[d].relay.Some?
                           && peers[d].relay.value.ip == Some(ip) && !IsLoopback(ip) ::
      ip in out
    ensures forall d, ip | d in peers && peers[d].relay.None? && peers[d].remote.Some?
                           && peers[d].remote.value.ip == Some(ip) && !IsLoopback(ip) :: ip in out
  {
    out := [];
    var seen: set<IP> := {};
    var todo := peers.Keys;
    while todo != {}
      invariant todo <= peers.Keys
      invariant Distinct(out) && forall ip :: ip in seen <==> ip in out
      invariant forall d | d in peers && d !in todo && Target(peers[d]).Some? :: Target(peers[d]).value.ip in out
      invariant forall ip | ip in out :: ContactsHost(peers, ip)
    {
      var d :| d in todo;
      todo := todo - {d};
      var target := Target(peers[d]);
      if target.Some? && target.value.ip !in seen {
        assert ContactsHost(peers, target.value.ip);
        seen := seen + {target.value.ip};
        out := out + [target.value.ip];
      }
    }
  }
}
