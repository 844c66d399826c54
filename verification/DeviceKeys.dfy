/**
 One device key per network (client/agent/devicekey.go), against a server that ties each public key
 to one user on one network (backend/internal/usecase/coordination_service.go).

 Key generation is an input: every generated key is one that nobody has held before.
 */
module DeviceKeys {
  import opened Basics

  datatype Keypair = Keypair(secret: string, public: string)

  const NO_KEY: Keypair := Keypair("", "")

  predicate Zero(k: Keypair) {
    k.secret == "" || k.public == ""
  }

  /** What an installation knows of a network it has joined. */
  datatype NetworkState = NetworkState(keypair: Keypair, deviceId: string, virtualIP: string)

  const NOTHING: NetworkState := NetworkState(NO_KEY, "", "")

  /** The stored configuration: the installation-wide key and the joined networks. */
  datatype Config = Config(keypair: Keypair, networks: map<string, NetworkState>)

  function StateOf(c: Config, n: string): NetworkState {
    if n in c.networks then c.networks[n] else NOTHING
  }

  predicate Keyed(c: Config, n: string) {
    n in c.networks && !Zero(c.networks[n].keypair)
  }

  predicate Taken(c: Config, public: string) {
    exists n | n in c.networks :: c.networks[n].keypair.public == public
  }

  /** The key a network is given: its own, the installation's if no network has it, or a new one. */
  function KeyFor(c: Config, n: string, mint: Keypair): Keypair {
    if Keyed(c, n) then c.networks[n].keypair
    else if !Zero(c.keypair) && !Taken(c, c.keypair.public) then c.keypair
    else mint
  }

  function WithDeviceKey(c: Config, n: string, mint: Keypair): Config {
    c.(networks := c.networks[n := StateOf(c, n).(keypair := KeyFor(c, n, mint))])
  }

  function WithReset(c: Config, n: string, mint: Keypair): Config {
    c.(networks := c.networks[n := NetworkState(mint, "", "")])
  }

  function WithForgotten(c: Config, n: string): Config {
    c.(networks := c.networks - {n})
  }

  function WithRotated(c: Config, mint: Keypair): Config {
    Config(mint, map n | n in c.networks :: c.networks[n].(deviceId := ""))
  }

  /** Joining or registering records a network without touching its key. */
  function WithRecorded(c: Config, n: string, deviceId: string, virtualIP: string): Config {
    c.(networks := c.networks[n := NetworkState(StateOf(c, n).keypair, deviceId, virtualIP)])
  }

  /** No two networks have the same public key. */
  ghost predicate Distinct(c: Config) {
    forall n, m | Keyed(c, n) && Keyed(c, m) && n != m :: c.networks[n].keypair.public != c.networks[m].keypair.public
  }

  predicate Holds(c: Config, public: string) {
    public != "" && (c.keypair.public == public || Taken(c, public))
  }

  /** Every key found in the new configuration was in the old one or has just been made. */
  ghost predicate HoldsNoMore(c: Config, d: Config, mint: Keypair) {
    forall p | Holds(d, p) :: Holds(c, p) || p == mint.public
  }

  lemma DeviceKeyKeepsDistinct(c: Config, n: string, mint: Keypair)
    requires Distinct(c) && !Zero(mint) && !Holds(c, mint.public)
    ensures Distinct(WithDeviceKey(c, n, mint)) && HoldsNoMore(c, WithDeviceKey(c, n, mint), mint)
  {
    var d, k := WithDeviceKey(c, n, mint), KeyFor(c, n, mint);
    forall m | Keyed(d, m) && m != n ensures Keyed(c, m) && d.networks[m].keypair.public != k.public {
      assert d.networks[m] == c.networks[m];
      assert Taken(c, c.networks[m].keypair.public);
    }
  }

  lemma ResetKeepsDistinct(c: Config, n: string, mint: Keypair)
    requires Distinct(c) && !Zero(mint) && !Holds(c, mint.public)
    ensures Distinct(WithReset(c, n, mint)) && HoldsNoMore(c, WithReset(c, n, mint), mint)
  {
    var d := WithReset(c, n, mint);
    forall m | Keyed(d, m) && m != n ensures Keyed(c, m) && d.networks[m].keypair.public != mint.public {
      assert d.networks[m] == c.networks[m];
      assert Taken(c, c.networks[m].keypair.public);
    }
  }

  lemma ForgetKeepsDistinct(c: Config, n: string, mint: Keypair)
    requires Distinct(c)
    ensures Distinct(WithForgotten(c, n)) && HoldsNoMore(c, WithForgotten(c, n), mint)
  {
  }

  lemma RotateKeepsDistinct(c: Config, mint: Keypair)
    requires Distinct(c)
    ensures Distinct(WithRotated(c, mint)) && HoldsNoMore(c, WithRotated(c, mint), mint)
  {
  }

  lemma RecordKeepsDistinct(c: Config, n: string, deviceId: string, virtualIP: string, mint: Keypair)
    requires Distinct(c)
    ensures Distinct(WithRecorded(c, n, deviceId, virtualIP))
    ensures HoldsNoMore(c, WithRecorded(c, n, deviceId, virtualIP), mint)
  {
    var d := WithRecorded(c, n, deviceId, virtualIP);
    forall m | Keyed(d, m) ensures Keyed(c, m) && d.networks[m].keypair == c.networks[m].keypair {
    }
  }

  /**
   A rotated installation key becomes a network's key if and only if the network has none:
   rotation does not replace the keys that networks already have.
   */
  lemma RotationReachesIff(c: Config, n: string, rotated: Keypair, mint: Keypair)
    requires !Zero(rotated) && !Holds(c, rotated.public) && mint != rotated
    ensures KeyFor(WithRotated(c, rotated), n, mint) == rotated <==> !Keyed(c, n)
  {
    var d := WithRotated(c, rotated);
    if Keyed(c, n) {
      assert d.networks[n].keypair == c.networks[n].keypair;
      assert Taken(c, c.networks[n].keypair.public);
    }
    forall m | m in d.networks ensures d.networks[m].keypair.public != rotated.public {
      assert d.networks[m].keypair == c.networks[m].keypair;
      assert Taken(c, c.networks[m].keypair.public);
    }
  }

  // ------------------------------------------------------------------------ server

  datatype Owner = Owner(user: string, network: string)

  /** The device rows by public key, the membership rows and the networks. */
  datatype Registry = Registry(devices: map<string, Owner>, members: set<Owner>, networks: set<string>)

  datatype Reply = Accepted | NotMember | NoNetwork | KeyRefused | ServerError

  /** The two refusals that a client sees as the same permission error. */
  predicate Denied(r: Reply) {
    r == NotMember || r == KeyRefused
  }

  function Answer(s: Registry, user: string, n: string, public: string, fault: bool): Reply {
    if Owner(user, n) !in s.members then NotMember
    else if n !in s.networks then NoNetwork
    else if public in s.devices && s.devices[public] != Owner(user, n) then KeyRefused
    else if fault then ServerError
    else Accepted
  }

  function Registered(s: Registry, user: string, n: string, public: string, fault: bool): Registry {
    if Answer(s, user, n, public, fault) != Accepted then s
    else s.(devices := s.devices[public := Owner(user, n)])
  }

  // -------------------------------------------------------------------------- runs

  /** All installations, which of them made each key, and the server. */
  datatype World = World(clients: map<nat, Config>, maker: map<string, nat>, server: Registry)

  datatype Step =
    | DeviceKey(client: nat, network: string, mint: Keypair)
    | Reset(client: nat, network: string, mint: Keypair)
    | Forget(client: nat, network: string)
    | Rotate(client: nat, mint: Keypair)
    | Record(client: nat, network: string, deviceId: string, virtualIP: string)
    | Register(client: nat, network: string, user: string, fault: bool)
    | Administer(members: set<Owner>, networks: set<string>)
    | RemoveDevices(removed: set<string>)

  predicate Fresh(w: World, k: Keypair) {
    !Zero(k) && k.public !in w.maker
  }

  predicate Enabled(w: World, step: Step) {
    match step
    case DeviceKey(c, _, mint) => c in w.clients && Fresh(w, mint)
    case Reset(c, _, mint) => c in w.clients && Fresh(w, mint)
    case Forget(c, _) => c in w.clients
    case Rotate(c, mint) => c in w.clients && Fresh(w, mint)
    case Record(c, _, _, _) => c in w.clients
    case Register(c, n, _, _) => c in w.clients && Keyed(w.clients[c], n)
    case Administer(_, _) => true
    case RemoveDevices(_) => true
  }

  function Made(w: World, c: nat, config: Config, mint: Keypair): World {
    w.(clients := w.clients[c := config], maker := w.maker[mint.public := c])
  }

  function Next(w: World, step: Step): World
    requires Enabled(w, step)
  {
    match step
    case DeviceKey(c, n, mint) => Made(w, c, WithDeviceKey(w.clients[c], n, mint), mint)
    case Reset(c, n, mint) => Made(w, c, WithReset(w.clients[c], n, mint), mint)
    case Forget(c, n) => w.(clients := w.clients[c := WithForgotten(w.clients[c], n)])
    case Rotate(c, mint) => Made(w, c, WithRotated(w.clients[c], mint), mint)
    case Record(c, n, id, ip) => w.(clients := w.clients[c := WithRecorded(w.clients[c], n, id, ip)])
    case Register(c, n, user, fault) =>
      w.(server := Registered(w.server, user, n, w.clients[c].networks[n].keypair.public, fault))
    case Administer(members, networks) => w.(server := w.server.(members := members, networks := networks))
    case RemoveDevices(removed) => w.(server := w.server.(devices := w.server.devices - removed))
  }

  predicate CanRun(w: World, steps: seq<Step>)
    decreases |steps|, 0
  {
    steps == [] || (CanRun(w, steps[..|steps| - 1]) && Enabled(Run(w, steps[..|steps| - 1]), steps[|steps| - 1]))
  }

  function Run(w: World, steps: seq<Step>): World
    requires CanRun(w, steps)
    decreases |steps|, 1
  {
    if steps == [] then w else Next(Run(w, steps[..|steps| - 1]), steps[|steps| - 1])
  }

  /** Installations hold only keys they made themselves, and none for two networks. */
  ghost predicate Invariant(w: World) {
    && (forall c | c in w.clients :: Distinct(w.clients[c]))
    && (forall c, p | c in w.clients && Holds(w.clients[c], p) :: p in w.maker && w.maker[p] == c)
    && (forall p | p in w.server.devices :: p in w.maker)
  }

  lemma ChangedConfig(w: World, c: nat, d: Config, mint: Keypair)
    requires Invariant(w) && c in w.clients && Fresh(w, mint)
    requires Distinct(d) && HoldsNoMore(w.clients[c], d, mint)
    ensures Invariant(Made(w, c, d, mint))
  {
  }

  lemma SameKeys(w: World, c: nat, d: Config)
    requires Invariant(w) && c in w.clients
    requires Distinct(d) && HoldsNoMore(w.clients[c], d, NO_KEY)
    ensures Invariant(w.(clients := w.clients[c := d]))
  {
  }

  lemma RegisterKeepsInvariant(w: World, step: Step)
    requires Invariant(w) && Enabled(w, step) && step.Register?
    ensures Invariant(Next(w, step))
  {
    var public := w.clients[step.client].networks[step.network].keypair.public;
    assert Taken(w.clients[step.client], public);
    assert Holds(w.clients[step.client], public);
  }

  lemma NextKeepsInvariant(w: World, step: Step)
    requires Invariant(w) && Enabled(w, step)
    ensures Invariant(Next(w, step))
  {
    match step
    case DeviceKey(c, n, mint) =>
      DeviceKeyKeepsDistinct(w.clients[c], n, mint);
      ChangedConfig(w, c, WithDeviceKey(w.clients[c], n, mint), mint);
    case Reset(c, n, mint) =>
      ResetKeepsDistinct(w.clients[c], n, mint);
      ChangedConfig(w, c, WithReset(w.clients[c], n, mint), mint);
    case Forget(c, n) =>
      ForgetKeepsDistinct(w.clients[c], n, NO_KEY);
      SameKeys(w, c, WithForgotten(w.clients[c], n));
    case Rotate(c, mint) =>
      RotateKeepsDistinct(w.clients[c], mint);
      ChangedConfig(w, c, WithRotated(w.clients[c], mint), mint);
    case Record(c, n, id, ip) =>
      RecordKeepsDistinct(w.clients[c], n, id, ip, NO_KEY);
      SameKeys(w, c, WithRecorded(w.clients[c], n, id, ip));
    case Register(_, _, _, _) =>
      RegisterKeepsInvariant(w, step);
    case Administer(_, _) =>
    case RemoveDevices(_) =>
  }

  /** Whatever installations and the server do, no installation has one key on two networks. */
  lemma {:induction false} RunKeepsInvariant(w: World, steps: seq<Step>)
    requires Invariant(w) && CanRun(w, steps)
    ensures Invariant(Run(w, steps))
  {
    if steps != [] {
      RunKeepsInvariant(w, steps[..|steps| - 1]);
      NextKeepsInvariant(Run(w, steps[..|steps| - 1]), steps[|steps| - 1]);
    }
  }

  /** Once registered, a key stays with its user and network until its device is removed. */
  lemma {:induction false} RegistrationStays(w: World, steps: seq<Step>, public: string)
    requires CanRun(w, steps) && public in w.server.devices
    requires forall s | s in steps && s.RemoveDevices? :: public !in s.removed
    ensures public in Run(w, steps).server.devices
    ensures Run(w, steps).server.devices[public] == w.server.devices[public]
  {
    if steps != [] {
      RegistrationStays(w, steps[..|steps| - 1], public);
      assert steps[|steps| - 1] in steps;
    }
  }

  /** The step replaces or drops an installation's key for a network. */
  predicate Rekeys(step: Step, c: nat, n: string) {
    (step.Reset? || step.Forget?) && step.client == c && step.network == n
  }

  /** An installation's key for a network stays until it is reset or forgotten. */
  lemma {:induction false} KeyIsStable(w: World, steps: seq<Step>, c: nat, n: string)
    requires CanRun(w, steps) && c in w.clients && Keyed(w.clients[c], n)
    requires forall s | s in steps :: !Rekeys(s, c, n)
    ensures c in Run(w, steps).clients && Keyed(Run(w, steps).clients[c], n)
    ensures Run(w, steps).clients[c].networks[n].keypair == w.clients[c].networks[n].keypair
    ensures forall mint :: KeyFor(Run(w, steps).clients[c], n, mint) == w.clients[c].networks[n].keypair
  {
    if steps != [] {
      KeyIsStable(w, steps[..|steps| - 1], c, n);
      assert !Rekeys(steps[|steps| - 1], c, n);
    }
  }

  predicate Registers(step: Step, c: nat, n: string) {
    step.Register? && step.client == c && step.network == n
  }

  /** Nobody but its holder, for the network it is held for, can register a key. */
  lemma OthersLeaveKey(w: World, step: Step, c: nat, n: string)
    requires Invariant(w) && Enabled(w, step) && c in w.clients && Keyed(w.clients[c], n)
    requires w.clients[c].networks[n].keypair.public !in w.server.devices && !Registers(step, c, n)
    ensures w.clients[c].networks[n].keypair.public !in Next(w, step).server.devices
  {
    var mine := w.clients[c].networks[n].keypair.public;
    assert Taken(w.clients[c], mine);
    assert Holds(w.clients[c], mine);
    if step.Register? {
      var theirs := w.clients[step.client].networks[step.network].keypair.public;
      assert Taken(w.clients[step.client], theirs);
      assert Holds(w.clients[step.client], theirs);
      if step.client == c {
        assert Distinct(w.clients[c]);
        assert Keyed(w.clients[c], step.network) && step.network != n;
        assert theirs != mine;
      } else {
        assert w.maker[theirs] == step.client && w.maker[mine] == c;
      }
    }
  }

  lemma {:induction false} UnregisteredStays(w: World, steps: seq<Step>, c: nat, n: string)
    requires Invariant(w) && CanRun(w, steps) && c in w.clients && Keyed(w.clients[c], n)
    requires w.clients[c].networks[n].keypair.public !in w.server.devices
    requires forall s | s in steps :: !Rekeys(s, c, n) && !Registers(s, c, n)
    ensures w.clients[c].networks[n].keypair.public !in Run(w, steps).server.devices
  {
    if steps != [] {
      var front := steps[..|steps| - 1];
      UnregisteredStays(w, front, c, n);
      RunKeepsInvariant(w, front);
      KeyIsStable(w, front, c, n);
      OthersLeaveKey(Run(w, front), steps[|steps| - 1], c, n);
    }
  }

  /**
   After a reset, whatever everybody else does meanwhile and whoever is signed in, the next
   registration is made with the fresh key and is not refused for it.
   */
  lemma FreshKeyIsNotRefused(w: World, c: nat, n: string, mint: Keypair, steps: seq<Step>, user: string, fault: bool)
    requires Invariant(w) && Enabled(w, Reset(c, n, mint)) && CanRun(Next(w, Reset(c, n, mint)), steps)
    requires forall s | s in steps :: !Rekeys(s, c, n) && !Registers(s, c, n)
    ensures
      var v := Run(Next(w, Reset(c, n, mint)), steps);
      && c in v.clients && Keyed(v.clients[c], n) && v.clients[c].networks[n].keypair == mint
      && Answer(v.server, user, n, mint.public, fault) != KeyRefused
  {
    var next := Next(w, Reset(c, n, mint));
    NextKeepsInvariant(w, Reset(c, n, mint));
    KeyIsStable(next, steps, c, n);
    UnregisteredStays(next, steps, c, n);
  }
}

/** The agent and the coordination service as objects. */
module DeviceAgent {
  import opened Basics
  import opened DeviceKeys

  class CoordinationService {
    var devices: map<string, Owner>
    var members: set<Owner>
    var networks: set<string>

    function State(): Registry
      reads this
    {
      Registry(devices, members, networks)
    }

    constructor (members: set<Owner>, networks: set<string>)
      ensures State() == Registry(map[], members, networks)
    {
      this.devices := map[];
      this.members := members;
      this.networks := networks;
    }

    method RegisterDevice(user: string, n: string, public: string, fault: bool) returns (r: Reply)
      modifies this`devices
      ensures r == Answer(old(State()), user, n, public, fault)
      ensures State() == Registered(old(State()), user, n, public, fault)
      ensures r == Accepted <==>
        (Owner(user, n) in members && n in networks && !fault
         && (public !in old(devices) || old(devices)[public] == Owner(user, n)))
      ensures r == KeyRefused <==>
        (Owner(user, n) in members && n in networks && public in old(devices)
         && old(devices)[public] != Owner(user, n))
      ensures r == NotMember <==> Owner(user, n) !in members
      ensures r == NoNetwork <==> Owner(user, n) in members && n !in networks
      ensures devices == if r == Accepted then old(devices)[public := Owner(user, n)] else old(devices)
    {
      if Owner(user, n) !in members {
        return NotMember;
      }
      if n !in networks {
        return NoNetwork;
      }
      if public in devices {
        if devices[public].network != n || devices[public].user != user {
          return KeyRefused;
        }
        if fault {
          return ServerError;
        }
        assert devices[public := Owner(user, n)] == devices;
      } else {
        if fault {
          return ServerError;
        }
        devices := devices[public := Owner(user, n)];
      }
      r := Accepted;
    }
  }

  /** A registration by another installation. */
  datatype Request = Request(user: string, network: string, public: string, fault: bool)

  /** How a connection attempt ended: up, refused by permission, or failed in any other way. */
  datatype Outcome = Up | Refused | Broken

  /**
   What decides an attempt beside the key: whether it starts, what fails on the way, whether an
   unanswered registration can be made up from what was remembered, and what is recorded at the end.
   */
  datatype Attempt = Attempt(ready: bool, mint: Keypair, stored: bool, fault: bool, remembered: bool, addressed: bool,
                             recorded: bool, deviceId: string, virtualIP: string)

  function Recorded(c: Config, n: string, a: Attempt, o: Outcome): Config {
    if o == Up && a.recorded then WithRecorded(c, n, a.deviceId, a.virtualIP) else c
  }

  class Agent {
    var keypair: Keypair
    var networks: map<string, NetworkState>

    function Stored(): Config
      reads this
    {
      Config(keypair, networks)
    }

    constructor (config: Config)
      ensures Stored() == config
    {
      keypair := config.keypair;
      networks := config.networks;
    }

    method KeyTaken(public: string) returns (taken: bool)
      ensures taken == Taken(Stored(), public)
      ensures taken <==> exists n :: n in networks && networks[n].keypair.public == public
    {
      var todo := networks.Keys;
      while todo != {}
        invariant todo <= networks.Keys
        invariant forall n | n in networks && n !in todo :: networks[n].keypair.public != public
        decreases |todo|
      {
        var n :| n in todo;
        if networks[n].keypair.public == public {
          return true;
        }
        todo := todo - {n};
      }
      taken := false;
    }

    /** An update that could not be stored leaves the configuration as it was. */
    method DeviceKey(n: string, mint: Keypair, stored: bool) returns (key: Option<Keypair>)
      modifies this
      ensures stored ==> key == Some(KeyFor(old(Stored()), n, mint))
                         && Stored() == WithDeviceKey(old(Stored()), n, mint)
      ensures !stored ==> key == None && Stored() == old(Stored())
      ensures stored && n in old(networks) && old(networks)[n].keypair.secret != ""
              && old(networks)[n].keypair.public != "" ==>
        key == Some(old(networks)[n].keypair) && networks == old(networks)
      ensures stored && (n !in old(networks) || old(networks)[n].keypair.secret == ""
                         || old(networks)[n].keypair.public == "") ==>
        key == Some(if old(keypair).secret != "" && old(keypair).public != ""
                       && (forall m | m in old(networks) :: old(networks)[m].keypair.public != old(keypair).public)
                    then old(keypair) else mint)
      ensures keypair == old(keypair)
      ensures stored ==>
        && networks.Keys == old(networks).Keys + {n} && key == Some(networks[n].keypair)
        && (forall m | m in old(networks) && m != n :: networks[m] == old(networks)[m])
        && (n in old(networks) ==> networks[n] == old(networks)[n].(keypair := networks[n].keypair))
        && (n !in old(networks) ==> networks[n].deviceId == "" && networks[n].virtualIP == "")
    {
      var st := StateOf(Stored(), n);
      if Zero(st.keypair) {
        var taken := KeyTaken(keypair.public);
        if !Zero(keypair) && !taken {
          st := st.(keypair := keypair);
        } else {
          st := st.(keypair := mint);
        }
      }
      if !stored {
        return None;
      }
      networks := networks[n := st];
      key := Some(st.keypair);
    }

    method ResetDeviceKey(n: string, mint: Keypair, stored: bool) returns (ok: bool)
      modifies this
      ensures ok == stored
      ensures Stored() == if ok then WithReset(old(Stored()), n, mint) else old(Stored())
      ensures keypair == old(keypair)
      ensures networks == if stored then old(networks)[n := NetworkState(mint, "", "")] else old(networks)
    {
      if stored {
        var st := StateOf(Stored(), n).(keypair := mint, virtualIP := "", deviceId := "");
        networks := networks[n := st];
      }
      ok := stored;
    }

    method ForgetNetwork(n: string) returns (ok: bool)
      modifies this
      ensures ok == (n in old(networks))
      ensures Stored() == WithForgotten(old(Stored()), n)
      ensures keypair == old(keypair) && networks == old(networks) - {n}
    {
      ok := n in networks;
      networks := networks - {n};
    }

    method RotateDeviceKey(mint: Keypair)
      modifies this
      ensures Stored() == WithRotated(old(Stored()), mint)
      ensures keypair == mint && networks.Keys == old(networks).Keys
      ensures forall n | n in networks :: networks[n] == old(networks)[n].(deviceId := "")
    {
      keypair := mint;
      var todo := networks.Keys;
      while todo != {}
        invariant todo <= networks.Keys && networks.Keys == old(networks).Keys && keypair == mint
        invariant forall n | n in networks ::
            networks[n] == if n in todo then old(networks)[n] else old(networks)[n].(deviceId := "")
        decreases |todo|
      {
        var n :| n in todo;
        todo := todo - {n};
        networks := networks[n := networks[n].(deviceId := "")];
      }
    }

    method TryConnect(server: CoordinationService, user: string, n: string, a: Attempt) returns (o: Outcome)
      modifies this, server`devices
      ensures a.ready && a.stored ==>
        var key := KeyFor(old(Stored()), n, a.mint);
        var reply := Answer(old(server.State()), user, n, key.public, a.fault);
        && (o == Refused <==> Denied(reply))
        && (o == Up <==> a.addressed && (reply == Accepted || (reply == ServerError && a.remembered)))
        && server.State() == Registered(old(server.State()), user, n, key.public, a.fault)
        && Stored() == Recorded(WithDeviceKey(old(Stored()), n, a.mint), n, a, o)
        && n in networks && networks[n].keypair == key
        && (o == Up && a.recorded ==> networks[n] == NetworkState(key, a.deviceId, a.virtualIP))
      ensures !(a.ready && a.stored) ==>
        o == Broken && server.State() == old(server.State()) && Stored() == old(Stored())
    {
      if !a.ready {
        return Broken;
      }
      var key := DeviceKey(n, a.mint, a.stored);
      if key.None? {
        return Broken;
      }
      var r := server.RegisterDevice(user, n, key.value.public, a.fault);
      match r {
        case NotMember => o := Refused;
        case KeyRefused => o := Refused;
        case NoNetwork => o := Broken;
        case ServerError => o := if a.remembered && a.addressed then Up else Broken;
        case Accepted => o := if a.addressed then Up else Broken;
      }
      if o == Up && a.recorded {
        networks := networks[n := StateOf(Stored(), n).(deviceId := a.deviceId, virtualIP := a.virtualIP)];
      }
    }

    /** Other installations' registrations, which cannot use a key that they do not hold. */
    method OthersRegister(server: CoordinationService, others: seq<Request>, key: string)
      requires forall r | r in others :: r.public != key
      modifies server`devices
      ensures key in server.devices <==> key in old(server.devices)
    {
      for i := 0 to |others|
        invariant key in server.devices <==> key in old(server.devices)
      {
        assert others[i] in others;
        var _ := server.RegisterDevice(others[i].user, others[i].network, others[i].public, others[i].fault);
      }
    }

    /**
     Connects, trying once more with a fresh key after a refusal.  At most two attempts are made,
     and the last one is refused only if the user is not a member of the network.
     */
    method Connect(server: CoordinationService, user: string, n: string, first: Attempt, mint: Keypair, stored: bool,
                   others: seq<Request>, second: Attempt)
      returns (o: Outcome, attempts: nat)
      requires !Zero(mint) && mint.public !in server.devices && mint.public != first.mint.public
      requires !Holds(Stored(), mint.public) && forall r | r in others :: r.public != mint.public
      modifies this, server`devices
      ensures 1 <= attempts <= 2
      ensures Owner(user, n) in server.members ==> o != Refused
      ensures Owner(user, n) !in server.members && first.ready && first.stored ==>
        stored && second.ready && second.stored ==> o == Refused && attempts == 2
      ensures attempts == 2 <==>
        (first.ready && first.stored && stored
         && var key := KeyFor(old(Stored()), n, first.mint);
           (Owner(user, n) !in server.members
            || (n in server.networks && key.public in old(server.devices)
                && old(server.devices)[key.public] != Owner(user, n))))
      ensures attempts == 2 && Owner(user, n) in server.members && n in server.networks && second.ready && second.stored
              && !second.fault && second.addressed ==>
        o == Up && mint.public in server.devices && server.devices[mint.public] == Owner(user, n)
      ensures attempts == 2 && second.ready && second.stored ==>
        Stored() == Recorded(WithReset(old(Stored()), n, mint), n, second, o) && networks[n].keypair == mint
    {
      o := TryConnect(server, user, n, first);
      if o != Refused {
        return o, 1;
      }
      assert mint.public !in server.devices;
      var ok := ResetDeviceKey(n, mint, stored);
      if !ok {
        return Broken, 1;
      }
      assert Stored() == WithReset(old(Stored()), n, mint);
      OthersRegister(server, others, mint.public);
      o := TryConnect(server, user, n, second);
      attempts := 2;
    }
  }
}
