/**
 The other side of the configuration text: the device that is configured by it, and that reports
 its peers in it, as the cross-platform WireGuard configuration protocol has it. What the client
 prints is proved to configure the device as intended, and what the device reports to be read back.
 */
module UapiDevice {
  import opened Basics
  import opened Encoding
  import opened Uapi

  // ------------------------------------------------------------------- being configured

  datatype Setting =
    | SetPrivateKey
    | SetListenPort
    | SetPeer
    | SetRemove
    | SetEndpoint
    | SetKeepalive
    | SetReplace
    | SetAllowedIP
    | SetNothing

  function SettingOf(name: string): Setting {
    if name == "private_key" then SetPrivateKey
    else if name == "listen_port" then SetListenPort
    else if name == "public_key" then SetPeer
    else if name == "remove" then SetRemove
    else if name == "endpoint" then SetEndpoint
    else if name == "persistent_keepalive_interval" then SetKeepalive
    else if name == "replace_allowed_ips" then SetReplace
    else if name == "allowed_ip" then SetAllowedIP
    else SetNothing
  }

  datatype DevicePeer = DevicePeer(endpoint: Option<string>, keepalive: string, allowedIPs: seq<string>)

  /** A peer that has just been named. */
  const UNSET: DevicePeer := DevicePeer(None, "0", [])

  /** `current` is the peer that the lines being read are about. */
  datatype Device = Device(privateKey: string, listenPort: string, peers: map<string, DevicePeer>,
                           current: Option<string>)

  function PeerOf(d: Device, key: string): DevicePeer {
    if key in d.peers then d.peers[key] else UNSET
  }

  /** What a line about a peer changes of it. */
  function Changed(p: DevicePeer, s: Setting, value: string): DevicePeer {
    match s
    case SetEndpoint => p.(endpoint := Some(value))
    case SetKeepalive => p.(keepalive := value)
    case SetReplace => p.(allowedIPs := [])
    case SetAllowedIP => p.(allowedIPs := p.allowedIPs + [value])
    case _ => p
  }

  function Obey(d: Device, s: Setting, value: string): Device {
    match s
    case SetPrivateKey => d.(privateKey := value)
    case SetListenPort => d.(listenPort := value)
    case SetPeer => d.(current := Some(value), peers := d.peers[value := PeerOf(d, value)])
    case SetRemove => if d.current.None? then d else d.(peers := d.peers - {d.current.value})
    case _ =>
      if d.current.None? || d.current.value !in d.peers then d
      else d.(peers := d.peers[d.current.value := Changed(d.peers[d.current.value], s, value)])
  }

  function ObeyLine(d: Device, line: string): Device {
    var cut := Cut(line);
    if cut.None? then d else Obey(d, SettingOf(cut.value.0), cut.value.1)
  }

  function ObeyLines(d: Device, lines: seq<string>): Device {
    if lines == [] then d else ObeyLine(ObeyLines(d, lines[..|lines| - 1]), lines[|lines| - 1])
  }

  /** The device after it has read a configuration text. */
  function Configured(d: Device, text: string): Device {
    ObeyLines(d, Lines(text))
  }

  lemma {:induction false} ObeyConcat(d: Device, a: seq<string>, b: seq<string>)
    ensures ObeyLines(d, a + b) == ObeyLines(ObeyLines(d, a), b)
  {
    if b == [] {
      assert a + b == a;
    } else {
      ObeyConcat(d, a, b[..|b| - 1]);
      assert (a + b)[..|a + b| - 1] == a + b[..|b| - 1];
    }
  }

  /** What entries do to the device, by their names. */
  function Effect(d: Device, es: seq<Entry>): Device {
    if es == [] then d else Obey(Effect(d, es[..|es| - 1]), SettingOf(es[|es| - 1].name), es[|es| - 1].value)
  }

  /** An entry that is printed as one line, whose name ends at its equals sign. */
  predicate OneLine(e: Entry) {
    '=' !in e.name && '\n' !in e.name && '\n' !in e.value
  }

  lemma {:induction false} ObeyRendered(d: Device, es: seq<Entry>)
    requires forall e | e in es :: OneLine(e)
    ensures ObeyLines(d, Render(es)) == Effect(d, es) && forall l | l in Render(es) :: '\n' !in l
  {
    if es != [] {
      var e := es[|es| - 1];
      ObeyRendered(d, es[..|es| - 1]);
      assert OneLine(e);
      CutField(e.name, e.value);
    }
  }

  lemma ConfiguredByText(d: Device, es: seq<Entry>)
    requires forall e | e in es :: OneLine(e)
    ensures Configured(d, Text(es)) == Effect(d, es)
  {
    ObeyRendered(d, es);
    LinesOfJoin(Render(es), "");
    assert Join(Render(es)) + "" == Join(Render(es));
    ObeyConcat(d, Render(es), [""]);
    var now := ObeyLines(d, Render(es));
    assert [""][..0] == [] && ObeyLines(now, [""]) == ObeyLine(now, "");
  }

  lemma {:induction false} EffectConcat(d: Device, a: seq<Entry>, b: seq<Entry>)
    ensures Effect(d, a + b) == Effect(Effect(d, a), b)
  {
    if b == [] {
      assert a + b == a;
    } else {
      EffectConcat(d, a, b[..|b| - 1]);
      assert (a + b)[..|a + b| - 1] == a + b[..|b| - 1];
    }
  }

  lemma EffectOfOne(d: Device, name: string, key: Key, value: string, s: Setting)
    requires SettingOf(name) == s
    ensures Effect(d, [Entry(name, key, value)]) == Obey(d, s, value)
  {
    assert [Entry(name, key, value)][..0] == [];
  }

  // The names that are printed.

  lemma PrivateKeyName()
    ensures SettingOf("private_key") == SetPrivateKey && '=' !in "private_key" && '\n' !in "private_key"
  {
  }

  lemma ListenPortName()
    ensures SettingOf("listen_port") == SetListenPort && '=' !in "listen_port" && '\n' !in "listen_port"
  {
    assert "listen_port"[0] == 'l' && "private_key"[0] == 'p';
  }

  lemma PublicKeyName()
    ensures SettingOf("public_key") == SetPeer && '=' !in "public_key" && '\n' !in "public_key"
  {
  }

  lemma RemoveName()
    ensures SettingOf("remove") == SetRemove && '=' !in "remove" && '\n' !in "remove"
  {
  }

  lemma EndpointName()
    ensures SettingOf("endpoint") == SetEndpoint && '=' !in "endpoint" && '\n' !in "endpoint"
  {
  }

  lemma KeepaliveName()
    ensures SettingOf("persistent_keepalive_interval") == SetKeepalive
    ensures '=' !in "persistent_keepalive_interval" && '\n' !in "persistent_keepalive_interval"
  {
  }

  lemma ReplaceName()
    ensures SettingOf("replace_allowed_ips") == SetReplace
    ensures '=' !in "replace_allowed_ips" && '\n' !in "replace_allowed_ips"
  {
  }

  lemma AllowedName()
    ensures SettingOf("allowed_ip") == SetAllowedIP && '=' !in "allowed_ip" && '\n' !in "allowed_ip"
  {
    assert "allowed_ip"[0] == 'a' && "public_key"[0] == 'p';
  }

  // What each kind of text does to the device.

  /** A peer's entries, named by what they are to the device. */
  lemma HeadEffect(d: Device, p: PeerConfig, hexKey: string)
    ensures var was := PeerOf(d, hexKey);
      Effect(d, HeadEntries(p, hexKey)) ==
      d.(current := Some(hexKey),
         peers := d.peers[hexKey := DevicePeer(if p.endpoint.Some? then p.endpoint else was.endpoint,
                                               Itoa(p.keepalive), was.allowedIPs)])
  {
    var first, third := Entry("public_key", PublicKey, hexKey),
                        Entry("persistent_keepalive_interval", Unknown, Itoa(p.keepalive));
    PublicKeyName();
    KeepaliveName();
    EffectOfOne(d, "public_key", PublicKey, hexKey, SetPeer);
    var d1 := Effect(d, [first]);
    if p.endpoint.Some? {
      var second := Entry("endpoint", EndpointKey, p.endpoint.value);
      EndpointName();
      EffectOfOne(d1, "endpoint", EndpointKey, p.endpoint.value, SetEndpoint);
      var d2 := Effect(d1, [second]);
      EffectOfOne(d2, "persistent_keepalive_interval", Unknown, Itoa(p.keepalive), SetKeepalive);
      EffectConcat(d, [first], [second]);
      EffectConcat(d, [first] + [second], [third]);
      assert HeadEntries(p, hexKey) == [first] + [second] + [third];
    } else {
      EffectOfOne(d1, "persistent_keepalive_interval", Unknown, Itoa(p.keepalive), SetKeepalive);
      EffectConcat(d, [first], [third]);
      assert HeadEntries(p, hexKey) == [first] + [third];
    }
  }

  /** The current peer with other allowed addresses. */
  function WithAddresses(d: Device, ips: seq<string>): Device
    requires d.current.Some? && d.current.value in d.peers
  {
    d.(peers := d.peers[d.current.value := d.peers[d.current.value].(allowedIPs := ips)])
  }

  lemma {:induction false} AllowedEffect(d: Device, ips: seq<string>)
    requires d.current.Some? && d.current.value in d.peers
    ensures Effect(d, AllowedEntries(ips)) == WithAddresses(d, d.peers[d.current.value].allowedIPs + ips)
  {
    var had := d.peers[d.current.value].allowedIPs;
    if ips == [] {
      assert had + ips == had;
      assert d.peers[d.current.value := d.peers[d.current.value].(allowedIPs := had)] == d.peers;
    } else {
      var front, last := ips[..|ips| - 1], ips[|ips| - 1];
      AllowedEffect(d, front);
      AllowedName();
      EffectConcat(d, AllowedEntries(front), [Entry("allowed_ip", AllowedIP, last)]);
      var d1 := Effect(d, AllowedEntries(front));
      EffectOfOne(d1, "allowed_ip", AllowedIP, last, SetAllowedIP);
      assert had + front + [last] == had + ips;
    }
  }

  lemma ReplaceThenAllow(d: Device, ips: seq<string>)
    requires d.current.Some? && d.current.value in d.peers
    ensures Effect(Obey(d, SetReplace, "true"), AllowedEntries(ips)) == WithAddresses(d, ips)
  {
    var d1 := Obey(d, SetReplace, "true");
    assert d1 == WithAddresses(d, []);
    AllowedEffect(d1, ips);
    assert [] + ips == ips;
  }

  lemma TailEffect(d: Device, p: PeerConfig)
    requires d.current.Some? && d.current.value in d.peers
    ensures Effect(d, TailEntries(p)) == if p.allowedIPs == [] then d else WithAddresses(d, p.allowedIPs)
  {
    if p.allowedIPs != [] {
      var e := Entry("replace_allowed_ips", Unknown, "true");
      ReplaceName();
      EffectOfOne(d, "replace_allowed_ips", Unknown, "true", SetReplace);
      EffectConcat(d, [e], AllowedEntries(p.allowedIPs));
      ReplaceThenAllow(d, p.allowedIPs);
    }
  }

  predicate WholeLines(p: PeerConfig) {
    (p.endpoint.Some? ==> '\n' !in p.endpoint.value) && forall ip | ip in p.allowedIPs :: '\n' !in ip
  }

  lemma {:induction false} AllowedOneLine(ips: seq<string>)
    requires forall ip | ip in ips :: '\n' !in ip
    ensures forall e | e in AllowedEntries(ips) :: OneLine(e)
  {
    if ips != [] {
      AllowedOneLine(ips[..|ips| - 1]);
      AllowedName();
    }
  }

  lemma NumberHasNoBreak(n: int)
    ensures '\n' !in Itoa(n)
  {
    ItoaIsClean(n);
    CleanIsSettled(Itoa(n));
  }

  lemma PeerOneLine(p: PeerConfig, hexKey: string)
    requires WholeLines(p) && '\n' !in hexKey
    ensures forall e | e in PeerEntries(p, hexKey) :: OneLine(e)
  {
    PublicKeyName();
    EndpointName();
    KeepaliveName();
    ReplaceName();
    NumberHasNoBreak(p.keepalive);
    AllowedOneLine(p.allowedIPs);
  }

  /**
   The text printed for a peer configures it: its keepalive is set, its endpoint is set if it has one
   and left alone otherwise, its allowed addresses become exactly those given if there are any and
   are left alone otherwise, and nothing else about the device changes.
   */
  lemma PeerIsConfigured(d: Device, p: PeerConfig, hexKey: string)
    requires WholeLines(p) && '\n' !in hexKey
    ensures var was := PeerOf(d, hexKey);
      Configured(d, Text(PeerEntries(p, hexKey))) ==
      d.(current := Some(hexKey),
         peers := d.peers[hexKey := DevicePeer(if p.endpoint.Some? then p.endpoint else was.endpoint,
                                               Itoa(p.keepalive),
                                               if p.allowedIPs == [] then was.allowedIPs else p.allowedIPs)])
  {
    PeerOneLine(p, hexKey);
    ConfiguredByText(d, PeerEntries(p, hexKey));
    EffectConcat(d, HeadEntries(p, hexKey), TailEntries(p));
    HeadEffect(d, p, hexKey);
    TailEffect(Effect(d, HeadEntries(p, hexKey)), p);
  }

  /** The text printed for a removal removes exactly that peer. */
  lemma PeerIsRemoved(d: Device, hexKey: string)
    requires '\n' !in hexKey
    ensures Configured(d, Text(RemoveEntries(hexKey))).peers == d.peers - {hexKey}
  {
    var first, second := Entry("public_key", PublicKey, hexKey), Entry("remove", Unknown, "true");
    PublicKeyName();
    RemoveName();
    assert RemoveEntries(hexKey) == [first] + [second];
    assert forall e | e in RemoveEntries(hexKey) :: OneLine(e);
    ConfiguredByText(d, RemoveEntries(hexKey));
    EffectConcat(d, [first], [second]);
    EffectOfOne(d, "public_key", PublicKey, hexKey, SetPeer);
    EffectOfOne(Effect(d, [first]), "remove", Unknown, "true", SetRemove);
  }

  /** The text printed for the interface sets its key and its port and nothing else. */
  lemma InterfaceIsConfigured(d: Device, hexKey: string, listenPort: int)
    requires '\n' !in hexKey
    ensures Configured(d, Text(InterfaceEntries(hexKey, listenPort))) ==
            d.(privateKey := hexKey, listenPort := Itoa(listenPort))
  {
    var first, second := Entry("private_key", Unknown, hexKey), Entry("listen_port", Unknown, Itoa(listenPort));
    PrivateKeyName();
    ListenPortName();
    NumberHasNoBreak(listenPort);
    assert InterfaceEntries(hexKey, listenPort) == [first] + [second];
    ConfiguredByText(d, InterfaceEntries(hexKey, listenPort));
    EffectConcat(d, [first], [second]);
    EffectOfOne(d, "private_key", Unknown, hexKey, SetPrivateKey);
    EffectOfOne(Effect(d, [first]), "listen_port", Unknown, Itoa(listenPort), SetListenPort);
  }

  // ------------------------------------------------------------------------ reporting

  function PlaceEntries(st: PeerStats, hexKey: string): seq<Entry> {
    [Entry("public_key", PublicKey, hexKey)] +
    (if st.endpoint == "" then [] else [Entry("endpoint", EndpointKey, st.endpoint)])
  }

  function CounterEntries(st: PeerStats): seq<Entry> {
    [Entry("last_handshake_time_sec", Handshake, Itoa(st.lastHandshake))] +
    [Entry("tx_bytes", TxBytes, Itoa(st.txBytes))] +
    [Entry("rx_bytes", RxBytes, Itoa(st.rxBytes))]
  }

  /** The lines a device reports about a peer that this client reads. */
  function ReportEntries(st: PeerStats, hexKey: string): seq<Entry> {
    PlaceEntries(st, hexKey) + CounterEntries(st) + AllowedEntries(st.allowedIPs)
  }

  lemma {:induction false} NumberReadsBack(n: nat)
    ensures IsNumber(Itoa(n)) && Digits(Itoa(n)) == n
  {
    if n >= 10 {
      NumberReadsBack(n / 10);
      var s := Itoa(n);
      assert s[..|s| - 1] == Itoa(n / 10);
    }
  }

  lemma PlaceMeaning(p: Parser, st: PeerStats, hexKey: string)
    requires p.Parser? && HexToKey(hexKey) == Some(st.publicKey)
    ensures Meaning(p, PlaceEntries(st, hexKey)) ==
            Parser(Flush(p).stats, Some(PeerStats(st.publicKey, st.endpoint, 0, 0, 0, [])))
  {
    var key := Entry("public_key", PublicKey, hexKey);
    MeaningOfOne(p, key);
    if st.endpoint == "" {
      assert PlaceEntries(st, hexKey) == [key];
    } else {
      var at := Entry("endpoint", EndpointKey, st.endpoint);
      MeaningConcat(p, [key], [at]);
      MeaningOfOne(Meaning(p, [key]), at);
    }
  }

  lemma HandshakeMeaning(p: Parser, c: PeerStats, n: int)
    requires p.Parser? && p.current == Some(c) && c.lastHandshake == 0 && 0 <= n < TWO_64 / 2
    ensures Apply(p, Handshake, Itoa(n)) == p.(current := Some(c.(lastHandshake := n)))
  {
    NumberReadsBack(n);
    assert Itoa(n)[0] != '+';
  }

  lemma CounterMeaning(p: Parser, c: PeerStats, tx: uint64, rx: uint64)
    requires p.Parser? && p.current == Some(c)
    ensures Apply(Apply(p, TxBytes, Itoa(tx)), RxBytes, Itoa(rx)) ==
            p.(current := Some(c.(txBytes := tx, rxBytes := rx)))
  {
    NumberReadsBack(tx);
    NumberReadsBack(rx);
  }

  lemma CountersMeaning(p: Parser, st: PeerStats)
    requires p.Parser? && 0 <= st.lastHandshake < TWO_64 / 2
    requires p.current == Some(PeerStats(st.publicKey, st.endpoint, 0, 0, 0, []))
    ensures Meaning(p, CounterEntries(st)) == p.(current := Some(st.(allowedIPs := [])))
  {
    var seen := Entry("last_handshake_time_sec", Handshake, Itoa(st.lastHandshake));
    var tx, rx := Entry("tx_bytes", TxBytes, Itoa(st.txBytes)), Entry("rx_bytes", RxBytes, Itoa(st.rxBytes));
    MeaningOfOne(p, seen);
    HandshakeMeaning(p, p.current.value, st.lastHandshake);
    var p1 := Meaning(p, [seen]);
    MeaningConcat(p, [seen], [tx]);
    MeaningOfOne(p1, tx);
    MeaningConcat(p, [seen] + [tx], [rx]);
    MeaningOfOne(Meaning(p1, [tx]), rx);
    CounterMeaning(p1, p1.current.value, st.txBytes, st.rxBytes);
  }

  lemma ReportMeaning(p: Parser, st: PeerStats, hexKey: string)
    requires p.Parser? && HexToKey(hexKey) == Some(st.publicKey) && 0 <= st.lastHandshake < TWO_64 / 2
    ensures Meaning(p, ReportEntries(st, hexKey)) == Parser(Flush(p).stats, Some(st))
  {
    var place, counters := PlaceEntries(st, hexKey), CounterEntries(st);
    PlaceMeaning(p, st, hexKey);
    MeaningConcat(p, place, counters);
    CountersMeaning(Meaning(p, place), st);
    MeaningConcat(p, place + counters, AllowedEntries(st.allowedIPs));
    AllowedMeaning(Meaning(p, place + counters), st.allowedIPs);
    assert [] + st.allowedIPs == st.allowedIPs;
  }

  // The names that are reported.

  lemma LegibleSeen(value: string)
    requires Settled(value)
    ensures Legible(Entry("last_handshake_time_sec", Handshake, value))
  {
    var name := "last_hand" + "shake_time_sec";
    PlainConcat("last_hand", "shake_time_sec");
    assert name == "last_handshake_time_sec";
    PlainIsLegible(name, value);
  }

  lemma LegibleTx(value: string)
    requires Settled(value)
    ensures Legible(Entry("tx_bytes", TxBytes, value))
  {
    var name := "tx_bytes";
    assert name[0] == 't' && "endpoint"[0] == 'e';
    PlainIsLegible(name, value);
  }

  lemma LegibleRx(value: string)
    requires Settled(value)
    ensures Legible(Entry("rx_bytes", RxBytes, value))
  {
    var name := "rx_bytes";
    assert name[0] == 'r' && "endpoint"[0] == 'e' && "tx_bytes"[0] == 't';
    PlainIsLegible(name, value);
  }

  lemma LegibleReport(st: PeerStats, hexKey: string)
    requires Settled(hexKey) && Settled(st.endpoint) && forall ip | ip in st.allowedIPs :: Settled(ip)
    ensures forall e | e in ReportEntries(st, hexKey) :: Legible(e)
  {
    LegibleKey(hexKey);
    LegibleEndpoint(st.endpoint);
    ItoaIsClean(st.lastHandshake);
    CleanIsSettled(Itoa(st.lastHandshake));
    LegibleSeen(Itoa(st.lastHandshake));
    ItoaIsClean(st.txBytes);
    CleanIsSettled(Itoa(st.txBytes));
    LegibleTx(Itoa(st.txBytes));
    ItoaIsClean(st.rxBytes);
    CleanIsSettled(Itoa(st.rxBytes));
    LegibleRx(Itoa(st.rxBytes));
    LegibleAllowed(st.allowedIPs);
  }

  /** A peer as a device can report it: a key of its own, settled fields, and times and counts within range. */
  ghost predicate Reportable(st: PeerStats) {
    && Canonical(st.publicKey) && Settled(st.endpoint) && (forall ip | ip in st.allowedIPs :: Settled(ip))
    && 0 <= st.lastHandshake < TWO_64 / 2
  }

  function ReportFor(st: PeerStats): seq<Entry> {
    var hexKey := KeyToHex(st.publicKey);
    if hexKey.None? then [] else ReportEntries(st, hexKey.value)
  }

  function Flatten(blocks: seq<seq<Entry>>): seq<Entry> {
    if blocks == [] then [] else Flatten(blocks[..|blocks| - 1]) + blocks[|blocks| - 1]
  }

  function Blocks(sts: seq<PeerStats>): (blocks: seq<seq<Entry>>)
    ensures |blocks| == |sts| && forall i | 0 <= i < |sts| :: blocks[i] == ReportFor(sts[i])
  {
    if sts == [] then [] else Blocks(sts[..|sts| - 1]) + [ReportFor(sts[|sts| - 1])]
  }

  /** The report about several peers, one after the other. */
  function Report(sts: seq<PeerStats>): seq<Entry> {
    Flatten(Blocks(sts))
  }

  /** Entries that finish whatever peer came before them and leave this one current. */
  ghost predicate Reads(es: seq<Entry>, st: PeerStats) {
    forall p: Parser | p.Parser? :: Meaning(p, es) == Parser(Flush(p).stats, Some(st))
  }

  /** Entries that a parser starting afresh reads as these peers. */
  ghost predicate Means(es: seq<Entry>, sts: seq<PeerStats>) {
    Meaning(BEGIN, es).Parser? && Flush(Meaning(BEGIN, es)).stats == sts
  }

  lemma BlockOnTop(es: seq<Entry>, sts: seq<PeerStats>, block: seq<Entry>, st: PeerStats)
    requires Means(es, sts) && Reads(block, st)
    ensures Means(es + block, sts + [st])
  {
    MeaningConcat(BEGIN, es, block);
    assert Meaning(Meaning(BEGIN, es), block) == Parser(sts, Some(st));
  }

  /** What holds of nothing and is kept by every block holds of all the blocks together. */
  lemma {:induction false} Stacked(blocks: seq<seq<Entry>>, sts: seq<PeerStats>,
                                   kept: (seq<Entry>, seq<PeerStats>) -> bool)
    requires |blocks| == |sts| && kept([], [])
    requires forall es, ss, i | 0 <= i < |sts| && kept(es, ss) :: kept(es + blocks[i], ss + [sts[i]])
    ensures kept(Flatten(blocks), sts)
  {
    if sts != [] {
      var n := |sts| - 1;
      Stacked(blocks[..n], sts[..n], kept);
      assert sts[..n] + [sts[n]] == sts;
    }
  }

  lemma {:induction false} BlocksLegible(blocks: seq<seq<Entry>>)
    requires forall i | 0 <= i < |blocks| :: forall e | e in blocks[i] :: Legible(e)
    ensures forall e | e in Flatten(blocks) :: Legible(e)
  {
    if blocks != [] {
      BlocksLegible(blocks[..|blocks| - 1]);
    }
  }

  lemma OneReport(p: Parser, st: PeerStats)
    requires p.Parser? && Reportable(st)
    ensures Meaning(p, ReportFor(st)) == Parser(Flush(p).stats, Some(st))
    ensures forall e | e in ReportFor(st) :: Legible(e)
  {
    KeyRoundTripIff(st.publicKey);
    HexIsSettled(Base64Decode(st.publicKey).value);
    ReportMeaning(p, st, KeyToHex(st.publicKey).value);
    LegibleReport(st, KeyToHex(st.publicKey).value);
  }

  lemma ReportReads(st: PeerStats)
    requires Reportable(st)
    ensures Reads(ReportFor(st), st) && forall e | e in ReportFor(st) :: Legible(e)
  {
    OneReport(BEGIN, st);
    forall p: Parser | p.Parser? ensures Meaning(p, ReportFor(st)) == Parser(Flush(p).stats, Some(st)) {
      OneReport(p, st);
    }
  }

  lemma ReportsMeaning(sts: seq<PeerStats>)
    requires forall st | st in sts :: Reportable(st)
    ensures Means(Report(sts), sts)
    ensures forall e | e in Report(sts) :: Legible(e)
  {
    var blocks := Blocks(sts);
    forall i | 0 <= i < |sts| ensures Reads(blocks[i], sts[i]) && forall e | e in blocks[i] :: Legible(e) {
      ReportReads(sts[i]);
    }
    forall es, ss, i | 0 <= i < |sts| && Means(es, ss) ensures Means(es + blocks[i], ss + [sts[i]]) {
      BlockOnTop(es, ss, blocks[i], sts[i]);
    }
    Stacked(blocks, sts, (es, ss) => Means(es, ss));
    BlocksLegible(blocks);
  }

  /** What a device reports of its peers reads back as exactly those peers, counts and handshake times included. */
  lemma ReportReadsBack(sts: seq<PeerStats>)
    requires forall st | st in sts :: Reportable(st)
    ensures Parsed(Text(Report(sts))) == Some(sts)
  {
    ReportsMeaning(sts);
    FeedRendered(BEGIN, Report(sts));
    var lines := Render(Report(sts));
    LinesOfJoin(lines, "");
    assert Join(lines) + "" == Join(lines);
    FeedConcat(BEGIN, lines, [""]);
    var p := FeedAll(BEGIN, lines);
    assert [""][..0] == [] && FeedAll(p, [""]) == Feed(p, "");
  }

  /** Numbers out of range and text that is no number are read as the standard library's parsers leave them. */
  lemma OutOfRange(p: Parser, c: PeerStats, n: nat, bad: string)
    requires p.Parser? && p.current == Some(c) && !IsNumber(bad)
    ensures n >= TWO_64 ==> Apply(p, TxBytes, Itoa(n)) == p.(current := Some(c.(txBytes := TWO_64 - 1)))
    ensures n >= TWO_64 ==> Apply(p, RxBytes, Itoa(n)) == p.(current := Some(c.(rxBytes := TWO_64 - 1)))
    ensures n >= TWO_64 / 2 ==> Apply(p, Handshake, Itoa(n)) == p
    ensures Apply(p, TxBytes, bad) == p.(current := Some(c.(txBytes := 0)))
    ensures Apply(p, RxBytes, bad) == p.(current := Some(c.(rxBytes := 0)))
  {
    NumberReadsBack(n);
    assert Itoa(n)[0] != '+';
  }

  /** Whatever comes before the first peer is ignored. */
  lemma {:induction false} BeforePeersIsIgnored(es: seq<Entry>)
    requires forall e | e in es :: e.key != PublicKey
    ensures Meaning(BEGIN, es) == BEGIN
  {
    if es != [] {
      BeforePeersIsIgnored(es[..|es| - 1]);
      assert es[|es| - 1] in es;
    }
  }

  /** A peer's key that is not hexadecimal fails the whole text, wherever it stands. */
  lemma BadKeyFails(before: seq<string>, value: string, after: seq<string>)
    requires Settled(value) && HexDecode(value).None?
    requires forall l | l in before + after :: '\n' !in l
    ensures Parsed(Join(before + [Field("public_key", value)] + after)) == None
  {
    var bad := Field("public_key", value);
    var lines := before + [bad] + after;
    LegibleKey(value);
    FeedEntry(FeedAll(BEGIN, before), Entry("public_key", PublicKey, value));
    LinesOfJoin(lines, "");
    assert Join(lines) + "" == Join(lines);
    var all := lines + [""];
    assert all[..|before| + 1] == before + [bad];
    assert (before + [bad])[..|before|] == before;
    FailureIsFinal(all, |before| + 1);
  }
}
