/**
 A host routing table with longest-prefix lookup (section 5.2.4.3 of RFC 1812),
 and the prefixes the client installs in it (client/internal/netroute/netroute.go).

 Addresses and prefixes are bit strings: a prefix matches an address of its family
 when its bits begin the address's bits.
 */
module Routes {
  import opened Basics

  datatype Bits = Bits(v6: bool, bits: seq<bool>)

  function Width(v6: bool): nat {
    if v6 then 128 else 32
  }

  /** An address. IPv4-mapped IPv6 addresses are the IPv4 addresses they map. */
  type IP = a: Bits | |a.bits| == Width(a.v6) witness Bits(false, seq(32, _ => false))

  type Prefix = Bits

  /** Where a route sends a packet: a gateway, if any, and a device. */
  datatype Hop = Hop(gateway: Option<IP>, dev: string)

  type Table = map<Prefix, Hop>

  predicate Matches(p: Prefix, a: IP) {
    p.v6 == a.v6 && p.bits <= a.bits
  }

  /** The prefix made of the first `k` bits of an address. */
  function Leading(a: IP, k: nat): Prefix
    requires k <= |a.bits|
  {
    Bits(a.v6, a.bits[..k])
  }

  function LookupFrom(t: Table, a: IP, k: nat): Option<Hop>
    requires k <= |a.bits|
  {
    if Leading(a, k) in t then Some(t[Leading(a, k)])
    else if k == 0 then None
    else LookupFrom(t, a, k - 1)
  }

  function Lookup(t: Table, a: IP): Option<Hop> {
    LookupFrom(t, a, |a.bits|)
  }

  ghost predicate LongestMatch(t: Table, a: IP, p: Prefix) {
    && p in t && Matches(p, a)
    && forall q | q in t && Matches(q, a) :: |q.bits| <= |p.bits|
  }

  lemma LookupFromIsLongest(t: Table, a: IP, k: nat)
    requires k <= |a.bits|
    requires forall q | q in t && Matches(q, a) :: |q.bits| <= k
    ensures LookupFrom(t, a, k).None? <==> forall q | q in t :: !Matches(q, a)
    ensures forall p | LongestMatch(t, a, p) :: LookupFrom(t, a, k) == Some(t[p])
  {
    assert forall q | Matches(q, a) :: q == Leading(a, |q.bits|);
    if Leading(a, k) !in t && k > 0 {
      LookupFromIsLongest(t, a, k - 1);
    } else if Leading(a, k) in t {
      assert Matches(Leading(a, k), a);
    }
  }

  /** Lookup finds the route of the longest matching prefix, and nothing only when no prefix matches. */
  lemma LookupIsLongest(t: Table, a: IP)
    ensures Lookup(t, a).None? <==> forall q | q in t :: !Matches(q, a)
    ensures forall p | LongestMatch(t, a, p) :: Lookup(t, a) == Some(t[p])
  {
    LookupFromIsLongest(t, a, |a.bits|);
  }

  /** The single-address prefix of an address. */
  function HostPrefix(ip: IP): Prefix {
    ip
  }

  // 0.0.0.0/1, 128.0.0.0/1, ::/1 and 8000::/1
  const LOW_V4: Prefix := Bits(false, [false])
  const HIGH_V4: Prefix := Bits(false, [true])
  const LOW_V6: Prefix := Bits(true, [false])
  const HIGH_V6: Prefix := Bits(true, [true])

  /** The halves of both address spaces, in the order they are installed. */
  const HALVES: seq<Prefix> := [LOW_V4, HIGH_V4, LOW_V6, HIGH_V6]

  const ALL_HALVES: set<Prefix> := {LOW_V4, HIGH_V4, LOW_V6, HIGH_V6}

  /** The half of the address space an address lies in. */
  function HalfOf(a: IP): (half: Prefix)
    ensures half in ALL_HALVES && Matches(half, a)
  {
    assert a.bits[..1] == if a.bits[0] then [true] else [false];
    Leading(a, 1)
  }

  // ------------------------------------------------------- a table being changed

  /**
   The table `base` after the prefixes in `touched` have been overwritten or deleted,
   of which `pins` now lead to `via` and `halves` to `tun`.
   */
  function Shape(base: Table, touched: set<Prefix>, pins: set<Prefix>, via: Hop, halves: set<Prefix>, tun: Hop): Table {
    map p | p in (base.Keys - touched) + pins + halves ::
      if p in halves then tun else if p in pins then via else base[p]
  }

  predicate IsHost(p: Prefix) {
    |p.bits| == Width(p.v6)
  }

  /** Some route of the table covers the address with between one and `k` bits. */
  ghost predicate Covered(t: Table, a: IP, k: nat)
    requires k <= |a.bits|
  {
    exists j :: 1 <= j <= k && Leading(a, j) in t
  }

  lemma {:induction false} UncoveredLookup(t: Table, a: IP, k: nat)
    requires k <= |a.bits| && !Covered(t, a, k)
    ensures LookupFrom(t, a, k) == LookupFrom(t, a, 0)
  {
    if k > 0 {
      assert !Covered(t, a, k - 1);
      UncoveredLookup(t, a, k - 1);
    }
  }

  lemma {:induction false} ShapeLookupFrom(base: Table, touched: set<Prefix>, pins: set<Prefix>, via: Hop,
                                           halves: set<Prefix>, tun: Hop, a: IP, k: nat)
    requires k <= |a.bits| && (k == |a.bits| ==> HostPrefix(a) !in pins)
    requires touched !! base.Keys
    requires forall p | p in pins :: IsHost(p)
    requires forall p | p in halves :: p in ALL_HALVES && p !in base
    ensures LookupFrom(Shape(base, touched, pins, via, halves, tun), a, k) ==
      if Covered(base, a, k) then LookupFrom(base, a, k)
      else if k >= 1 && HalfOf(a) in halves then Some(tun)
      else LookupFrom(base, a, 0)
  {
    var s := Shape(base, touched, pins, via, halves, tun);
    assert Leading(a, |a.bits|) == a;
    assert Leading(a, k) !in pins;
    if k == 0 {
      assert Leading(a, 0) !in halves;
    } else {
      ShapeLookupFrom(base, touched, pins, via, halves, tun, a, k - 1);
      assert Covered(base, a, k) <==> Leading(a, k) in base || Covered(base, a, k - 1);
      assert Leading(a, k) in halves ==> k == 1;
      if k == 1 {
        assert HalfOf(a) == Leading(a, 1);
      }
    }
  }

  /**
   What a half-changed table looks up, when nothing of the original was overwritten:
   pinned addresses go to `via`, captured halves go to `tun` unless the original has a
   route at least one bit long, and everything else goes where it always went.
   */
  lemma ShapeLookup(base: Table, touched: set<Prefix>, pins: set<Prefix>, via: Hop, halves: set<Prefix>, tun: Hop,
                    a: IP)
    requires touched !! base.Keys
    requires forall p | p in pins :: IsHost(p)
    requires forall p | p in halves :: p in ALL_HALVES && p !in base
    ensures Lookup(Shape(base, touched, pins, via, halves, tun), a) ==
      if HostPrefix(a) in pins then Some(via)
      else if !Covered(base, a, |a.bits|) && HalfOf(a) in halves then Some(tun)
      else Lookup(base, a)
  {
    var s := Shape(base, touched, pins, via, halves, tun);
    assert Leading(a, |a.bits|) == a;
    if HostPrefix(a) in pins {
      assert a in s && a !in halves;
    } else {
      ShapeLookupFrom(base, touched, pins, via, halves, tun, a, |a.bits|);
      if !Covered(base, a, |a.bits|) {
        UncoveredLookup(base, a, |a.bits|);
      }
    }
  }
}
