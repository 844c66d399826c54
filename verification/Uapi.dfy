/**
 The WireGuard configuration protocol's text, printed and parsed
 (client/internal/wireguard/wireguard.go).
 */
module Uapi {
  import opened Basics
  import opened Encoding

  datatype PeerConfig = PeerConfig(publicKey: string, endpoint: Option<string>, allowedIPs: seq<string>, keepalive: int)

  datatype PeerStats = PeerStats(publicKey: string, endpoint: string, lastHandshake: int, txBytes: uint64,
                                 rxBytes: uint64, allowedIPs: seq<string>)

  // ------------------------------------------------------------------------- keys

  function KeyToHex(key: string): Option<string> {
    var raw := Base64Decode(key);
    if raw.None? || |raw.value| != 32 then None else Some(HexEncode(raw.value))
  }

  function HexToKey(hex: string): Option<string> {
    var raw := HexDecode(hex);
    if raw.None? then None else Some(Base64Encode(raw.value))
  }

  /** The base64 text of a 32-byte key as an encoder writes it. */
  ghost predicate Canonical(key: string) {
    exists raw: seq<byte> :: |raw| == 32 && key == Base64Encode(raw)
  }

  /** A key that is accepted comes back from its hexadecimal form unchanged if and only if it is canonical. */
  lemma KeyRoundTripIff(key: string)
    ensures Canonical(key) ==> KeyToHex(key).Some?
    ensures KeyToHex(key).Some? ==> (HexToKey(KeyToHex(key).value) == Some(key) <==> Canonical(key))
  {
    if Canonical(key) {
      var raw :| |raw| == 32 && key == Base64Encode(raw);
      Base64RoundTrip(raw);
      HexRoundTrip(raw);
    }
    if KeyToHex(key).Some? {
      HexRoundTrip(Base64Decode(key).value);
    }
  }

  // ------------------------------------------------------------------------- text

  /** White space as Go's unicode.IsSpace knows it. */
  predicate IsSpace(c: char) {
    var n := c as int;
    9 <= n <= 13 || n == 32 || n == 0x85 || n == 0xA0 || n == 0x1680 || 0x2000 <= n <= 0x200A
    || n == 0x2028 || n == 0x2029 || n == 0x202F || n == 0x205F || n == 0x3000
  }

  predicate Clean(s: string) {
    forall c | c in s :: !IsSpace(c)
  }

  function TrimLeft(s: string): string {
    if s != "" && IsSpace(s[0]) then TrimLeft(s[1..]) else s
  }

  function TrimRight(s: string): string {
    if s != "" && IsSpace(s[|s| - 1]) then TrimRight(s[..|s| - 1]) else s
  }

  function TrimSpace(s: string): string {
    TrimRight(TrimLeft(s))
  }

  /** The text before and after the first equals sign. */
  function Cut(s: string): Option<(string, string)> {
    if s == "" then None
    else if s[0] == '=' then Some(("", s[1..]))
    else
      var rest := Cut(s[1..]);
      if rest.None? then None else Some(([s[0]] + rest.value.0, rest.value.1))
  }

  /** The text split at every line break. */
  function Lines(s: string): (lines: seq<string>)
    ensures lines != []
  {
    if s == "" then [""]
    else
      var rest := Lines(s[1..]);
      if s[0] == '\n' then [""] + rest else [[s[0]] + rest[0]] + rest[1..]
  }

  /** Lines put together, each ended by a line break. */
  function Join(lines: seq<string>): string {
    if lines == [] then "" else lines[0] + "\n" + Join(lines[1..])
  }

  function Field(key: string, value: string): string {
    key + "=" + value
  }

  lemma {:induction false} CutField(key: string, value: string)
    requires '=' !in key
    ensures Cut(Field(key, value)) == Some((key, value))
  {
    if key != "" {
      CutField(key[1..], value);
      assert Field(key, value)[1..] == Field(key[1..], value);
      assert [key[0]] + key[1..] == key;
    } else {
      assert Field(key, value)[1..] == value;
    }
  }

  lemma {:induction false} LinesOfOne(line: string, rest: string)
    requires '\n' !in line
    ensures Lines(line + "\n" + rest) == [line] + Lines(rest)
  {
    var s := line + "\n" + rest;
    if line == "" {
      assert s[1..] == rest;
    } else {
      LinesOfOne(line[1..], rest);
      assert s[1..] == line[1..] + "\n" + rest;
      assert [line[0]] + line[1..] == line;
    }
  }

  lemma {:induction false} LinesOfJoin(lines: seq<string>, rest: string)
    requires forall l | l in lines :: '\n' !in l
    ensures Lines(Join(lines) + rest) == lines + Lines(rest)
  {
    if lines == [] {
      assert Join(lines) + rest == rest;
    } else {
      LinesOfJoin(lines[1..], rest);
      LinesOfOne(lines[0], Join(lines[1..]) + rest);
      assert Join(lines) + rest == lines[0] + "\n" + (Join(lines[1..]) + rest);
      assert [lines[0]] + lines[1..] == lines;
    }
  }

  lemma {:induction false} JoinConcat(a: seq<string>, b: seq<string>)
    ensures Join(a + b) == Join(a) + Join(b)
  {
    if a == [] {
      assert a + b == b;
    } else {
      JoinConcat(a[1..], b);
      assert (a + b)[1..] == a[1..] + b;
    }
  }

  /** A decimal number. */
  function Itoa(n: int): string
    decreases n < 0, if n < 0 then -n else n
  {
    if n < 0 then "-" + Itoa(-n)
    else if n < 10 then [('0' as int + n) as char]
    else Itoa(n / 10) + [('0' as int + n % 10) as char]
  }

  lemma {:induction false} ItoaIsClean(n: int)
    ensures Clean(Itoa(n))
    decreases n < 0, if n < 0 then -n else n
  {
    if n < 0 {
      ItoaIsClean(-n);
    } else if n >= 10 {
      ItoaIsClean(n / 10);
    }
  }

  // --------------------------------------------------------------------- printing

  /** The keys the parser looks for. */
  datatype Key = PublicKey | EndpointKey | Handshake | TxBytes | RxBytes | AllowedIP | Unknown

  function KeyOf(s: string): Key {
    if s == "public_key" then PublicKey
    else if s == "endpoint" then EndpointKey
    else if s == "last_handshake_time_sec" then Handshake
    else if s == "tx_bytes" then TxBytes
    else if s == "rx_bytes" then RxBytes
    else if s == "allowed_ip" then AllowedIP
    else Unknown
  }

  /** One printed line: a name, what the parser takes it for, and a value. */
  datatype Entry = Entry(name: string, key: Key, value: string)

  function Render(es: seq<Entry>): seq<string> {
    if es == [] then [] else Render(es[..|es| - 1]) + [Field(es[|es| - 1].name, es[|es| - 1].value)]
  }

  function InterfaceEntries(hexKey: string, listenPort: int): seq<Entry> {
    [Entry("private_key", Unknown, hexKey), Entry("listen_port", Unknown, Itoa(listenPort))]
  }

  function AllowedEntries(ips: seq<string>): seq<Entry> {
    if ips == [] then [] else AllowedEntries(ips[..|ips| - 1]) + [Entry("allowed_ip", AllowedIP, ips[|ips| - 1])]
  }

  function HeadEntries(p: PeerConfig, hexKey: string): seq<Entry> {
    [Entry("public_key", PublicKey, hexKey)] +
    (if p.endpoint.Some? then [Entry("endpoint", EndpointKey, p.endpoint.value)] else []) +
    [Entry("persistent_keepalive_interval", Unknown, Itoa(p.keepalive))]
  }

  function TailEntries(p: PeerConfig): seq<Entry> {
    if p.allowedIPs == [] then []
    else [Entry("replace_allowed_ips", Unknown, "true")] + AllowedEntries(p.allowedIPs)
  }

  function PeerEntries(p: PeerConfig, hexKey: string): seq<Entry> {
    HeadEntries(p, hexKey) + TailEntries(p)
  }

  function RemoveEntries(hexKey: string): seq<Entry> {
    [Entry("public_key", PublicKey, hexKey), Entry("remove", Unknown, "true")]
  }

  /** The text of some entries. */
  function Text(es: seq<Entry>): string {
    Join(Render(es))
  }

  lemma {:induction false} RenderConcat(a: seq<Entry>, b: seq<Entry>)
    ensures Render(a + b) == Render(a) + Render(b)
  {
    if b == [] {
      assert a + b == a;
    } else {
      RenderConcat(a, b[..|b| - 1]);
      assert (a + b)[..|a + b| - 1] == a + b[..|b| - 1];
    }
  }

  lemma TextConcat(a: seq<Entry>, b: seq<Entry>)
    ensures Text(a + b) == Text(a) + Text(b)
  {
    RenderConcat(a, b);
    JoinConcat(Render(a), Render(b));
  }

  lemma TextOfOne(e: Entry)
    ensures Text([e]) == Field(e.name, e.value) + "\n"
  {
    assert [e][..0] == [];
    assert Render([e]) == [Field(e.name, e.value)];
    assert Join([Field(e.name, e.value)][1..]) == "";
  }

  /** Appends one line to what has been printed. */
  method PrintLine(b: string, e: Entry, ghost es: seq<Entry>) returns (out: string)
    requires b == Text(es)
    ensures out == Text(es + [e])
  {
    out := b + e.name + "=" + e.value + "\n";
    TextConcat(es, [e]);
    TextOfOne(e);
    assert out == b + (Field(e.name, e.value) + "\n");
  }

  method BuildInterfaceUapi(privateKey: string, listenPort: int) returns (out: Option<string>)
    ensures out == if KeyToHex(privateKey).None? then None
                   else Some(Text(InterfaceEntries(KeyToHex(privateKey).value, listenPort)))
  {
    var hexKey := KeyToHex(privateKey);
    if hexKey.None? {
      return None;
    }
    var first, second := Entry("private_key", Unknown, hexKey.value), Entry("listen_port", Unknown, Itoa(listenPort));
    var b := PrintLine("", first, []);
    b := PrintLine(b, second, [] + [first]);
    assert [] + [first] + [second] == InterfaceEntries(hexKey.value, listenPort);
    out := Some(b);
  }

  method PrintAllowed(b: string, ips: seq<string>, ghost es: seq<Entry>) returns (out: string)
    requires b == Text(es)
    ensures out == Text(es + AllowedEntries(ips))
  {
    out := b;
    assert ips[..0] == [] && es + [] == es;
    for i := 0 to |ips|
      invariant out == Text(es + AllowedEntries(ips[..i]))
    {
      var e := Entry("allowed_ip", AllowedIP, ips[i]);
      out := PrintLine(out, e, es + AllowedEntries(ips[..i]));
      assert ips[..i + 1][..i] == ips[..i];
      assert es + AllowedEntries(ips[..i]) + [e] == es + AllowedEntries(ips[..i + 1]);
    }
    assert ips[..|ips|] == ips;
  }

  method PrintHead(p: PeerConfig, hexKey: string) returns (out: string)
    ensures out == Text(HeadEntries(p, hexKey))
  {
    var e := Entry("public_key", PublicKey, hexKey);
    ghost var es := [e];
    out := PrintLine("", e, []);
    assert [] + [e] == es;
    if p.endpoint.Some? {
      e := Entry("endpoint", EndpointKey, p.endpoint.value);
      out := PrintLine(out, e, es);
      es := es + [e];
    }
    e := Entry("persistent_keepalive_interval", Unknown, Itoa(p.keepalive));
    out := PrintLine(out, e, es);
    assert es + [e] == HeadEntries(p, hexKey);
  }

  method PrintTail(b: string, p: PeerConfig, ghost es: seq<Entry>) returns (out: string)
    requires b == Text(es)
    ensures out == Text(es + TailEntries(p))
  {
    out := b;
    assert es + [] == es;
    if |p.allowedIPs| > 0 {
      var e := Entry("replace_allowed_ips", Unknown, "true");
      out := PrintLine(out, e, es);
      out := PrintAllowed(out, p.allowedIPs, es + [e]);
      assert es + [e] + AllowedEntries(p.allowedIPs) == es + TailEntries(p);
    }
  }

  method PrintRemoval(hexKey: string) returns (out: string)
    ensures out == Text(RemoveEntries(hexKey))
  {
    var first, second := Entry("public_key", PublicKey, hexKey), Entry("remove", Unknown, "true");
    out := PrintLine("", first, []);
    out := PrintLine(out, second, [] + [first]);
    assert [] + [first] + [second] == RemoveEntries(hexKey);
  }

  /** The text that adds or updates a peer, or removes it. */
  method BuildPeerUapi(p: PeerConfig, remove: bool) returns (out: Option<string>)
    ensures KeyToHex(p.publicKey).None? ==> out == None
    ensures KeyToHex(p.publicKey).Some? ==>
      var hexKey := KeyToHex(p.publicKey).value;
      out == Some(Text(if remove then RemoveEntries(hexKey) else PeerEntries(p, hexKey)))
  {
    var hexKey := KeyToHex(p.publicKey);
    if hexKey.None? {
      return None;
    }
    var b: string;
    if remove {
      b := PrintRemoval(hexKey.value);
    } else {
      b := PrintHead(p, hexKey.value);
      b := PrintTail(b, p, HeadEntries(p, hexKey.value));
    }
    out := Some(b);
  }

  // ---------------------------------------------------------------------- parsing

  predicate AllDigits(s: string) {
    forall i | 0 <= i < |s| :: '0' <= s[i] <= '9'
  }

  predicate IsNumber(s: string) {
    s != "" && AllDigits(s)
  }

  function Digits(s: string): nat
    requires AllDigits(s)
  {
    if s == "" then 0 else Digits(s[..|s| - 1]) * 10 + (s[|s| - 1] as int - '0' as int)
  }

  /** strconv.ParseUint with its error ignored: zero for bad text, the largest value when out of range. */
  function ParseUint(s: string): uint64 {
    if !IsNumber(s) then 0 else Min(Digits(s), TWO_64 - 1)
  }

  /** A positive strconv.ParseInt, or zero. */
  function ParsePositive(s: string): int {
    var t := if s != "" && s[0] == '+' then s[1..] else s;
    if !IsNumber(t) || Digits(t) >= TWO_64 / 2 then 0 else Digits(t)
  }

  /** The peers finished so far and the one whose lines are being read. */
  datatype Parser = Parser(stats: seq<PeerStats>, current: Option<PeerStats>) | Failed

  const BEGIN: Parser := Parser([], None)

  function Flush(p: Parser): Parser {
    if p.Failed? || p.current.None? then p else Parser(p.stats + [p.current.value], None)
  }

  function Apply(p: Parser, key: Key, value: string): Parser {
    if p.Failed? then Failed
    else if key == PublicKey then
      var b64 := HexToKey(value);
      if b64.None? then Failed
      else Flush(p).(current := Some(PeerStats(b64.value, "", 0, 0, 0, [])))
    else if p.current.None? then p
    else
      var c := p.current.value;
      match key
      case EndpointKey => p.(current := Some(c.(endpoint := value)))
      case Handshake =>
        if ParsePositive(value) > 0 then p.(current := Some(c.(lastHandshake := ParsePositive(value)))) else p
      case TxBytes => p.(current := Some(c.(txBytes := ParseUint(value))))
      case RxBytes => p.(current := Some(c.(rxBytes := ParseUint(value))))
      case AllowedIP => p.(current := Some(c.(allowedIPs := c.allowedIPs + [value])))
      case _ => p
  }

  function Feed(p: Parser, line: string): Parser {
    var cut := Cut(TrimSpace(line));
    if cut.None? then p else Apply(p, KeyOf(cut.value.0), cut.value.1)
  }

  function FeedAll(p: Parser, lines: seq<string>): Parser {
    if lines == [] then p else Feed(FeedAll(p, lines[..|lines| - 1]), lines[|lines| - 1])
  }

  function Parsed(raw: string): Option<seq<PeerStats>> {
    var p := Flush(FeedAll(BEGIN, Lines(raw)));
    if p.Failed? then None else Some(p.stats)
  }

  lemma {:induction false} FailedStays(lines: seq<string>)
    ensures FeedAll(Failed, lines) == Failed
  {
    if lines != [] {
      FailedStays(lines[..|lines| - 1]);
    }
  }

  lemma {:induction false} FeedConcat(p: Parser, a: seq<string>, b: seq<string>)
    ensures FeedAll(p, a + b) == FeedAll(FeedAll(p, a), b)
  {
    if b == [] {
      assert a + b == a;
    } else {
      FeedConcat(p, a, b[..|b| - 1]);
      assert (a + b)[..|a + b| - 1] == a + b[..|b| - 1];
    }
  }

  /** The loop's body: one line. */
  method FeedLine(p: Parser, raw: string) returns (next: Parser)
    ensures next == Feed(p, raw)
  {
    var line := TrimSpace(raw);
    var cut := Cut(line);
    if cut.None? {
      return p;
    }
    next := Apply(p, KeyOf(cut.value.0), cut.value.1);
  }

  lemma FailureIsFinal(lines: seq<string>, i: nat)
    requires i <= |lines| && FeedAll(BEGIN, lines[..i]) == Failed
    ensures FeedAll(BEGIN, lines) == Failed
  {
    assert lines == lines[..i] + lines[i..];
    FeedConcat(BEGIN, lines[..i], lines[i..]);
    FailedStays(lines[i..]);
  }

  lemma FeedOneMore(lines: seq<string>, i: nat)
    requires i < |lines|
    ensures FeedAll(BEGIN, lines[..i + 1]) == Feed(FeedAll(BEGIN, lines[..i]), lines[i])
  {
    assert lines[..i + 1][..i] == lines[..i];
  }

  method ParseStats(raw: string) returns (out: Option<seq<PeerStats>>)
    ensures out == Parsed(raw)
  {
    var p := BEGIN;
    var lines := Lines(raw);
    for i := 0 to |lines|
      invariant p == FeedAll(BEGIN, lines[..i]) && !p.Failed?
    {
      FeedOneMore(lines, i);
      p := FeedLine(p, lines[i]);
      if p.Failed? {
        FailureIsFinal(lines, i + 1);
        return None;
      }
    }
    assert lines[..|lines|] == lines;
    out := Some(Flush(p).stats);
  }

  // ------------------------------------------------------------------- round trip

  /** A value that survives being a line's end: no line break in it and no white space after it. */
  predicate Settled(s: string) {
    '\n' !in s && (s == "" || !IsSpace(s[|s| - 1]))
  }

  lemma CleanIsSettled(s: string)
    requires Clean(s)
    ensures Settled(s)
  {
    assert IsSpace('\n');
  }

  /** A line that the parser reads as what was printed. */
  predicate Legible(e: Entry) {
    e.name != "" && Clean(e.name) && '=' !in e.name && KeyOf(e.name) == e.key && Settled(e.value)
  }

  lemma FeedEntry(p: Parser, e: Entry)
    requires Legible(e)
    ensures Feed(p, Field(e.name, e.value)) == Apply(p, e.key, e.value)
    ensures '\n' !in Field(e.name, e.value)
  {
    var line := Field(e.name, e.value);
    assert line[0] == e.name[0] && !IsSpace(line[|line| - 1]);
    CutField(e.name, e.value);
    CleanIsSettled(e.name);
  }

  /** What some entries do to a parser, by their keys alone. */
  function Meaning(p: Parser, es: seq<Entry>): Parser {
    if es == [] then p else Apply(Meaning(p, es[..|es| - 1]), es[|es| - 1].key, es[|es| - 1].value)
  }

  lemma {:induction false} FeedRendered(p: Parser, es: seq<Entry>)
    requires forall e | e in es :: Legible(e)
    ensures FeedAll(p, Render(es)) == Meaning(p, es)
    ensures forall l | l in Render(es) :: '\n' !in l
  {
    if es != [] {
      FeedRendered(p, es[..|es| - 1]);
      FeedEntry(Meaning(p, es[..|es| - 1]), es[|es| - 1]);
    }
  }

  lemma {:induction false} MeaningConcat(p: Parser, a: seq<Entry>, b: seq<Entry>)
    ensures Meaning(p, a + b) == Meaning(Meaning(p, a), b)
  {
    if b == [] {
      assert a + b == a;
    } else {
      MeaningConcat(p, a, b[..|b| - 1]);
      assert (a + b)[..|a + b| - 1] == a + b[..|b| - 1];
    }
  }

  lemma MeaningOfOne(p: Parser, e: Entry)
    ensures Meaning(p, [e]) == Apply(p, e.key, e.value)
  {
    assert [e][..0] == [];
  }

  // The names in use are legible.

  /** A name is ignored when its first two letters start none of the names looked for. */
  lemma Ignored(s: string)
    requires |s| > 1 && (s[0] == 'p' ==> s[1] != 'u') && (s[0] == 'l' ==> s[1] != 'a') && (s[0] == 'r' ==> s[1] != 'x')
    requires s[0] !in {'e', 't', 'a'}
    ensures KeyOf(s) == Unknown
  {
    assert "public_key"[0] == 'p' && "public_key"[1] == 'u';
    assert "last_handshake_time_sec"[0] == 'l' && "last_handshake_time_sec"[1] == 'a';
    assert "rx_bytes"[0] == 'r' && "rx_bytes"[1] == 'x';
    assert "endpoint"[0] == 'e' && "tx_bytes"[0] == 't' && "allowed_ip"[0] == 'a';
  }

  lemma LegiblePrivateKey(value: string)
    requires Settled(value)
    ensures Legible(Entry("private_key", Unknown, value))
  {
    Ignored("private_key");
  }

  lemma LegiblePort(value: string)
    requires Settled(value)
    ensures Legible(Entry("listen_port", Unknown, value))
  {
    Ignored("listen_port");
  }

  /** A name of lower-case letters and underscores. */
  predicate Plain(s: string) {
    forall c | c in s :: 'a' <= c <= 'z' || c == '_'
  }

  lemma PlainIsLegible(name: string, value: string)
    requires name != "" && Plain(name) && Settled(value)
    ensures Legible(Entry(name, KeyOf(name), value))
  {
  }

  lemma PlainConcat(a: string, b: string)
    requires Plain(a) && Plain(b)
    ensures Plain(a + b)
  {
  }

  lemma LegibleKeepalive(keepalive: string)
    requires Settled(keepalive)
    ensures Legible(Entry("persistent_keepalive_interval", Unknown, keepalive))
  {
    var name := "persistent_" + "keepalive_" + "interval";
    PlainConcat("persistent_", "keepalive_");
    PlainConcat("persistent_" + "keepalive_", "interval");
    Ignored(name);
    PlainIsLegible(name, keepalive);
    assert "persistent_keepalive_interval" == name;
  }

  lemma LegibleReplace()
    ensures Legible(Entry("replace_allowed_ips", Unknown, "true"))
  {
    var name := "replace_" + "allowed_ips";
    PlainConcat("replace_", "allowed_ips");
    Ignored(name);
    PlainIsLegible(name, "true");
    assert "replace_allowed_ips" == name;
  }

  lemma LegibleKey(value: string)
    requires Settled(value)
    ensures Legible(Entry("public_key", PublicKey, value))
  {
  }

  lemma LegibleEndpoint(value: string)
    requires Settled(value)
    ensures Legible(Entry("endpoint", EndpointKey, value))
  {
    assert "endpoint"[0] == 'e' && "public_key"[0] == 'p';
  }

  lemma LegibleAddress(value: string)
    requires Settled(value)
    ensures Legible(Entry("allowed_ip", AllowedIP, value))
  {
    var name := "allowed_ip";
    assert name[0] == 'a' && "endpoint"[0] == 'e' && "public_key"[0] == 'p';
    assert "last_handshake_time_sec"[0] == 'l' && "tx_bytes"[0] == 't' && "rx_bytes"[0] == 'r';
    PlainIsLegible(name, value);
  }

  lemma {:induction false} LegibleAllowed(ips: seq<string>)
    requires forall ip | ip in ips :: Settled(ip)
    ensures forall e | e in AllowedEntries(ips) :: Legible(e)
  {
    if ips != [] {
      LegibleAllowed(ips[..|ips| - 1]);
      LegibleAddress(ips[|ips| - 1]);
    }
  }

  /** A peer that can be told apart from its text: a canonical key and settled fields. */
  ghost predicate Printable(p: PeerConfig) {
    && Canonical(p.publicKey)
    && (p.endpoint.Some? ==> Settled(p.endpoint.value))
    && (forall ip | ip in p.allowedIPs :: Settled(ip))
  }

  lemma LegiblePeer(p: PeerConfig, hexKey: string)
    requires Printable(p) && Settled(hexKey)
    ensures forall e | e in PeerEntries(p, hexKey) :: Legible(e)
  {
    ItoaIsClean(p.keepalive);
    CleanIsSettled(Itoa(p.keepalive));
    LegibleKeepalive(Itoa(p.keepalive));
    LegibleReplace();
    LegibleKey(hexKey);
    if p.endpoint.Some? {
      LegibleEndpoint(p.endpoint.value);
    }
    LegibleAllowed(p.allowedIPs);
  }

  // What a printed peer means to the parser.

  /** What reading a printed peer back yields. */
  function Read(p: PeerConfig): PeerStats {
    PeerStats(p.publicKey, if p.endpoint.Some? then p.endpoint.value else "", 0, 0, 0, p.allowedIPs)
  }

  lemma HeadMeaning(p: Parser, c: PeerConfig, hexKey: string)
    requires p.Parser? && HexToKey(hexKey) == Some(c.publicKey)
    ensures Meaning(p, HeadEntries(c, hexKey)) == Parser(Flush(p).stats, Some(Read(c).(allowedIPs := [])))
  {
    var first, third := Entry("public_key", PublicKey, hexKey),
                        Entry("persistent_keepalive_interval", Unknown, Itoa(c.keepalive));
    MeaningOfOne(p, first);
    if c.endpoint.Some? {
      var second := Entry("endpoint", EndpointKey, c.endpoint.value);
      MeaningConcat(p, [first], [second]);
      MeaningOfOne(Meaning(p, [first]), second);
      MeaningConcat(p, [first] + [second], [third]);
      MeaningOfOne(Meaning(p, [first] + [second]), third);
      assert HeadEntries(c, hexKey) == [first] + [second] + [third];
    } else {
      MeaningConcat(p, [first], [third]);
      MeaningOfOne(Meaning(p, [first]), third);
      assert HeadEntries(c, hexKey) == [first] + [third];
    }
  }

  function WithAllowed(p: Parser, ips: seq<string>): Parser
    requires p.Parser? && p.current.Some?
  {
    p.(current := Some(p.current.value.(allowedIPs := p.current.value.allowedIPs + ips)))
  }

  lemma {:induction false} AllowedMeaning(p: Parser, ips: seq<string>)
    requires p.Parser? && p.current.Some?
    ensures Meaning(p, AllowedEntries(ips)) == WithAllowed(p, ips)
  {
    var had := p.current.value.allowedIPs;
    if ips == [] {
      assert had + ips == had;
    } else {
      AllowedMeaning(p, ips[..|ips| - 1]);
      assert had + ips[..|ips| - 1] + [ips[|ips| - 1]] == had + ips;
    }
  }

  lemma TailMeaning(p: Parser, c: PeerConfig)
    requires p.Parser? && p.current.Some? && p.current.value.allowedIPs == []
    ensures Meaning(p, TailEntries(c)) == p.(current := Some(p.current.value.(allowedIPs := c.allowedIPs)))
  {
    if c.allowedIPs != [] {
      var e := Entry("replace_allowed_ips", Unknown, "true");
      MeaningConcat(p, [e], AllowedEntries(c.allowedIPs));
      MeaningOfOne(p, e);
      AllowedMeaning(p, c.allowedIPs);
      assert [] + c.allowedIPs == c.allowedIPs;
    }
  }

  /** A printed peer finishes the peer before it and leaves itself current. */
  lemma PeerMeaning(p: Parser, c: PeerConfig, hexKey: string)
    requires p.Parser? && HexToKey(hexKey) == Some(c.publicKey)
    ensures Meaning(p, PeerEntries(c, hexKey)) == Parser(Flush(p).stats, Some(Read(c)))
  {
    MeaningConcat(p, HeadEntries(c, hexKey), TailEntries(c));
    HeadMeaning(p, c, hexKey);
    TailMeaning(Meaning(p, HeadEntries(c, hexKey)), c);
  }

  // Lists of peers.

  function EntriesFor(c: PeerConfig): seq<Entry> {
    var hexKey := KeyToHex(c.publicKey);
    if hexKey.None? then [] else PeerEntries(c, hexKey.value)
  }

  function AllEntries(cs: seq<PeerConfig>): seq<Entry> {
    if cs == [] then [] else AllEntries(cs[..|cs| - 1]) + EntriesFor(cs[|cs| - 1])
  }

  /** The printed text of a list of peers, one after the other. */
  function PrintedPeers(cs: seq<PeerConfig>): string {
    if cs == [] then "" else PrintedPeers(cs[..|cs| - 1]) + Text(EntriesFor(cs[|cs| - 1]))
  }

  function ReadAll(cs: seq<PeerConfig>): seq<PeerStats> {
    if cs == [] then [] else ReadAll(cs[..|cs| - 1]) + [Read(cs[|cs| - 1])]
  }

  lemma {:induction false} PrintedIsText(cs: seq<PeerConfig>)
    ensures PrintedPeers(cs) == Text(AllEntries(cs))
  {
    if cs != [] {
      PrintedIsText(cs[..|cs| - 1]);
      TextConcat(AllEntries(cs[..|cs| - 1]), EntriesFor(cs[|cs| - 1]));
    }
  }

  lemma HexIsSettled(bs: seq<byte>)
    ensures Settled(HexEncode(bs))
  {
    HexText(bs);
    CleanIsSettled(HexEncode(bs));
  }

  lemma PrintableKey(c: PeerConfig)
    requires Printable(c)
    ensures KeyToHex(c.publicKey).Some? && Settled(KeyToHex(c.publicKey).value)
    ensures HexToKey(KeyToHex(c.publicKey).value) == Some(c.publicKey)
  {
    KeyRoundTripIff(c.publicKey);
    HexIsSettled(Base64Decode(c.publicKey).value);
  }

  lemma OnePeer(p: Parser, c: PeerConfig)
    requires p.Parser? && Printable(c)
    ensures Meaning(p, EntriesFor(c)) == Parser(Flush(p).stats, Some(Read(c)))
    ensures forall e | e in EntriesFor(c) :: Legible(e)
  {
    PrintableKey(c);
    LegiblePeer(c, KeyToHex(c.publicKey).value);
    PeerMeaning(p, c, KeyToHex(c.publicKey).value);
  }

  lemma {:induction false} PeersMeaning(cs: seq<PeerConfig>)
    requires forall c | c in cs :: Printable(c)
    ensures Meaning(BEGIN, AllEntries(cs)).Parser?
    ensures Flush(Meaning(BEGIN, AllEntries(cs))).stats == ReadAll(cs)
    ensures forall e | e in AllEntries(cs) :: Legible(e)
  {
    if cs != [] {
      var front, last := cs[..|cs| - 1], cs[|cs| - 1];
      PeersMeaning(front);
      MeaningConcat(BEGIN, AllEntries(front), EntriesFor(last));
      OnePeer(Meaning(BEGIN, AllEntries(front)), last);
    }
  }

  /** The interface's own lines leave a parser that has seen no peer as it is. */
  lemma InterfaceMeaning(hexKey: string, listenPort: int)
    requires Settled(hexKey)
    ensures Meaning(BEGIN, InterfaceEntries(hexKey, listenPort)) == BEGIN
    ensures forall e | e in InterfaceEntries(hexKey, listenPort) :: Legible(e)
  {
    ItoaIsClean(listenPort);
    CleanIsSettled(Itoa(listenPort));
    LegiblePrivateKey(hexKey);
    LegiblePort(Itoa(listenPort));
    var es := InterfaceEntries(hexKey, listenPort);
    assert es == [es[0]] + [es[1]];
    MeaningConcat(BEGIN, [es[0]], [es[1]]);
    MeaningOfOne(BEGIN, es[0]);
    MeaningOfOne(BEGIN, es[1]);
  }

  /** The whole configuration as text: the interface's lines and then each peer's. */
  function Printed(hexKey: string, listenPort: int, cs: seq<PeerConfig>): string {
    Text(InterfaceEntries(hexKey, listenPort)) + PrintedPeers(cs)
  }

  lemma PrintableReadsBack(hexKey: string, listenPort: int, cs: seq<PeerConfig>)
    requires Settled(hexKey) && forall c | c in cs :: Printable(c)
    ensures Parsed(Printed(hexKey, listenPort, cs)) == Some(ReadAll(cs))
  {
    var head, body := InterfaceEntries(hexKey, listenPort), AllEntries(cs);
    InterfaceMeaning(hexKey, listenPort);
    PeersMeaning(cs);
    PrintedIsText(cs);
    TextConcat(head, body);
    MeaningConcat(BEGIN, head, body);
    FeedRendered(BEGIN, head + body);
    var lines := Render(head + body);
    LinesOfJoin(lines, "");
    assert Join(lines) + "" == Join(lines);
    FeedConcat(BEGIN, lines, [""]);
    var p := FeedAll(BEGIN, lines);
    assert [""][..0] == [] && FeedAll(p, [""]) == Feed(p, "");
  }

  // What any text at all can be read as.

  /** A key that an encoder wrote, and settled fields: all a parser ever produces. */
  ghost predicate Genuine(st: PeerStats) {
    && (exists raw: seq<byte> :: st.publicKey == Base64Encode(raw))
    && Settled(st.endpoint)
    && (forall ip | ip in st.allowedIPs :: Settled(ip))
  }

  ghost predicate AllGenuine(p: Parser) {
    p.Parser? ==> (forall st | st in p.stats :: Genuine(st)) && (p.current.Some? ==> Genuine(p.current.value))
  }

  lemma ApplyKeepsGenuine(p: Parser, key: Key, value: string)
    requires AllGenuine(p) && Settled(value)
    ensures AllGenuine(Apply(p, key, value))
  {
    if p.Parser? && key == PublicKey && HexToKey(value).Some? {
      assert HexToKey(value).value == Base64Encode(HexDecode(value).value);
    }
  }

  lemma {:induction false} TrimLeftNoBreak(s: string)
    requires '\n' !in s
    ensures '\n' !in TrimLeft(s)
  {
    if s != "" && IsSpace(s[0]) {
      TrimLeftNoBreak(s[1..]);
    }
  }

  lemma {:induction false} TrimRightSettles(s: string)
    requires '\n' !in s
    ensures Settled(TrimRight(s))
  {
    if s != "" && IsSpace(s[|s| - 1]) {
      TrimRightSettles(s[..|s| - 1]);
    }
  }

  lemma {:induction false} CutSettles(s: string)
    requires Settled(s) && Cut(s).Some?
    ensures Settled(Cut(s).value.1)
  {
    if s[0] != '=' {
      CutSettles(s[1..]);
    }
  }

  lemma FeedKeepsGenuine(p: Parser, line: string)
    requires AllGenuine(p) && '\n' !in line
    ensures AllGenuine(Feed(p, line))
  {
    TrimLeftNoBreak(line);
    TrimRightSettles(TrimLeft(line));
    var cut := Cut(TrimSpace(line));
    if cut.Some? {
      CutSettles(TrimSpace(line));
      ApplyKeepsGenuine(p, KeyOf(cut.value.0), cut.value.1);
    }
  }

  lemma {:induction false} FeedAllKeepsGenuine(lines: seq<string>)
    requires forall l | l in lines :: '\n' !in l
    ensures AllGenuine(FeedAll(BEGIN, lines))
  {
    if lines != [] {
      FeedAllKeepsGenuine(lines[..|lines| - 1]);
      FeedKeepsGenuine(FeedAll(BEGIN, lines[..|lines| - 1]), lines[|lines| - 1]);
    }
  }

  lemma {:induction false} LinesHaveNoBreaks(s: string)
    ensures forall l | l in Lines(s) :: '\n' !in l
  {
    if s != "" {
      LinesHaveNoBreaks(s[1..]);
    }
  }

  /** Whatever the text, a parsed peer has an encoder's key and settled fields. */
  lemma ParsedIsGenuine(raw: string)
    ensures Parsed(raw).Some? ==> forall st | st in Parsed(raw).value :: Genuine(st)
  {
    LinesHaveNoBreaks(raw);
    FeedAllKeepsGenuine(Lines(raw));
  }

  lemma {:induction false} ReadAllHas(cs: seq<PeerConfig>, c: PeerConfig)
    requires c in cs
    ensures Read(c) in ReadAll(cs)
  {
    if c != cs[|cs| - 1] {
      ReadAllHas(cs[..|cs| - 1], c);
    }
  }

  lemma GenuineIsPrintable(c: PeerConfig)
    requires KeyToHex(c.publicKey).Some? && Genuine(Read(c))
    ensures Printable(c)
  {
    var raw: seq<byte> :| c.publicKey == Base64Encode(raw);
    Base64RoundTrip(raw);
  }

  /**
   Parsing undoes printing, exactly when it can: the interface block followed by peers whose keys
   are accepted reads back as those peers, in order, with the same key, endpoint and allowed
   addresses, if and only if every key is canonical and every field is settled.
   */
  lemma PrintParseRoundTripIff(privateKey: string, listenPort: int, cs: seq<PeerConfig>)
    requires KeyToHex(privateKey).Some? && forall c | c in cs :: KeyToHex(c.publicKey).Some?
    ensures Parsed(Printed(KeyToHex(privateKey).value, listenPort, cs)) == Some(ReadAll(cs))
            <==> forall c | c in cs :: Printable(c)
  {
    var hexKey := KeyToHex(privateKey).value;
    HexIsSettled(Base64Decode(privateKey).value);
    if Parsed(Printed(hexKey, listenPort, cs)) == Some(ReadAll(cs)) {
      ParsedIsGenuine(Printed(hexKey, listenPort, cs));
      forall c | c in cs ensures Printable(c) {
        ReadAllHas(cs, c);
        GenuineIsPrintable(c);
      }
    }
    if forall c | c in cs :: Printable(c) {
      PrintableReadsBack(hexKey, listenPort, cs);
    }
  }
}
