# Verified model of the NexusVPN cores

NexusVPN is a mesh VPN: clients run WireGuard, reach each other directly or through a relay, and are
introduced by a control plane. This project models the parts of it where state, ordering and
concurrency make correctness hard, and proves what those parts are for.

| file | models |
|---|---|
| `SessionTable.dfy`, `Sessions.dfy` | the relay's bindings and its address index: as values with a history, and as the object that updates them |
| `RelayServer.dfy`, `RelayNode.dfy` | the relay's packet handler and janitor: as steps that interleave, and as code over a buffer |
| `RelayFrames.dfy`, `RelayProxy.dfy` | the two copies of the relay framing, the client's pumps, and the way through all three |
| `Routes.dfy`, `LinuxRouter.dfy`, `Transport.dfy`, `ExitNode.dfy` | host routing with longest-prefix lookup, the commands that change it, and exit-node mode |
| `KillSwitch.dfy` | the two firewall rule generators and what their rules mean |
| `PeerPaths.dfy`, `ProxyLifetimes.dfy` | peers and their relay proxies under concurrency, and whether every proxy is closed in the end |
| `Presence.dfy`, `Phases.dfy` | presence from counters, tunnel phases |
| `Disco.dfy` | taking discovery packets out of a received batch in place |
| `Encoding.dfy`, `Uapi.dfy`, `UapiDevice.dfy` | hexadecimal and base64, the WireGuard configuration text printed and parsed, and what that text does to a device |
| `Pairing.dfy` | single-use pairing tokens |
| `DeviceKeys.dfy` | device keys per network against the server's registry |
| `Ownership.dfy` | network owners and administrators |

The pattern is the same throughout. A state is a value, and an operation, or one locked section of
one, is a function on it. What every step keeps is proved step by step and then for every run, by
induction over the steps. Code that changes things in place is a class or a method with loops, proved
to do exactly what the function says, for every order in which a map can be visited. What an operation
is for is stated once more without the function that specifies it: when exactly it succeeds, what it
changes, and what it leaves alone.

Clocks, random ids, fresh keys, token verification, the outcome of every system command, socket
write, repository call and file update are inputs: parameters, or nondeterministic choices. Each routing
command, each command to the firewall and each write of a peer's allowed addresses is recorded with its
outcome, and what a failure leaves behind is stated in terms of that record. Clock readings do not
decrease, generated ids and keys are fresh, and signatures cannot be forged; where a result needs one
of these it is a `requires` or the guard of a step.

## What the code does not keep

Some laws that one would expect hold only under a condition. Each is stated with that condition, as
an if-and-only-if where it is one, beside a case in which it fails.

- The relay's address index is the inverse of the bindings only while no two devices share an
  address (`RelayServer.RunIsExactIff`, `SessionTable.SharerForgotten`).
- A default route captured by halves is not released when the second half fails, so the first half
  then swallows the endpoints whose pins are removed (`ExitNode.Tunnel.SetThenClear`,
  `ExitNode.LeftoverHalfSwallows`).
- Removing a peer and shutting down are documented to release its resources. A negotiation that is
  still under way may install a relay proxy afterwards, which nothing then closes
  (`ProxyLifetimes.AllClosedIff`, `ProxyLifetimes.LateProxyStaysOpen`).
- The two firewall generators disagree on some DHCP packets (`KillSwitch.GeneratorsAgreeIff`,
  `KillSwitch.GeneratorsDifferOnDhcp`).
- A pairing token can be accepted twice by a call that straddles its expiry
  (`Pairing.AtMostOnceIff`, `Pairing.AcceptedTwice`).
- A network whose creation fails at its second write has no owner (`Ownership.OneOwnerIff`,
  `Ownership.OrphanIsReachable`), and a role change can overtake another
  (`Ownership.AdminChangeIff`, `Ownership.RacedDemotionIsReachable`).
- `RotateDeviceKey` is documented to invalidate the old key network-wide. The code replaces the
  installation's key only, and networks that have a key of their own keep it. The model follows the
  code (`DeviceKeys.RotationReachesIff`).

## Model

| member | source | states |
|---|---|---|
| `RelayServer.EveryForwardIsAuthentic` | relay/udprelay/server.go:160-192 | In every run of packets and janitor passes, including passes between the two locked sections of a DATA frame, each forwarded datagram came from the address of the live binding of the device stamped on it, and went to a live binding in the same network; both were unexpired at the routing clock reading |
| `RelayServer.ForwardIsAuthentic` | relay/udprelay/server.go:171-191 | The same for one forwarding step: it appends exactly one datagram and that datagram is authentic |
| `RelayServer.RunKeepsInvariant` | relay/udprelay/server.go:57-114 | Every run keeps the index sound against the accepted BINDs, the looked-up sender fresh, and the counters balanced |
| `RelayServer.RunIsGrounded` | relay/udprelay/server.go:116-158 | Every accepted BIND in the history was a received BIND frame naming the device, from that address, with a verified token for that device and network |
| `RelayServer.CountersAddUp` | relay/udprelay/session.go:182-194 | Datagrams handled equal relayed plus dropped plus accepted BINDs plus accepted KEEPALIVEs plus the one in progress, and bytes relayed equal the total length of forwarded frames, all modulo 2^64 |
| `RelayServer.RunRespectsCapacity` | relay/udprelay/session.go:82-94 | With a cap set, no run of the relay holds more sessions than the cap |
| `RelayServer.RunIsReplay` | relay/udprelay/server.go:100-225 | The table and the accepted BINDs of every relay run are those of its projection onto the table's own locked sections, so what holds of every run of the table holds of every run of the relay |
| `RelayServer.RunIsExactIff` | relay/udprelay/session.go:98-104 | In every relay run the index is the exact inverse of the bindings throughout if and only if no accepted BIND reuses an address on record for another device |
| `RelayServer.RunKeepsAlive` | relay/udprelay/server.go:100-225 | Over every continuation of any run, a device heard from at a time stays bound while neither its idle timeout nor its token has run out, whoever else sends, binds or is evicted |
| `RelayServer.KeepaliveHolds` | relay/udprelay/server.go:194-201 | After a KEEPALIVE from an indexed address is handled, its device stays bound through every run that follows, for the idle timeout from then and as long as its token lasts |
| `RelayServer.BindIff` | relay/udprelay/server.go:116-158 | A datagram is recorded as an accepted BIND if and only if it is laid out as one, its token is verified for the device it names, and there is room; the table then gains exactly that binding, and is untouched otherwise |
| `RelayServer.LooksUpIff` | relay/udprelay/server.go:160-201 | Any other datagram goes on to its second section if and only if it is a KEEPALIVE, or a DATA frame laid out for a peer, from an indexed address; all others are counted as dropped, and no table changes |
| `RelayServer.SentGrows` | relay/udprelay/server.go:171-191 | A step sends at most one datagram, and one if and only if it finishes a DATA frame that routing answers and whose write succeeds; a finished frame not sent is counted as dropped |
| `RelayServer.ReceiveKeepsSound` | relay/udprelay/server.go:100-114 | Handling a datagram's first section keeps the index sound and leaves a looked-up sender that is still the last to bind from its address |
| `RelayServer.FinishDataKeepsSound` | relay/udprelay/server.go:171-191 | Routing and forwarding keeps the index sound |
| `RelayServer.JanitorKeepsSound` | relay/udprelay/server.go:211-225 | A janitor pass at any moment keeps the index sound and a looked-up sender valid |
| `RelayNode.Server.HandlePacket` | relay/udprelay/server.go:100-114 | The handler working in place on the read buffer and the session store, with janitor passes in between, moves the node exactly as the step machine does, and emits exactly the datagrams the machine sends |
| `RelayNode.Server.HandleBind` | relay/udprelay/server.go:116-158 | A BIND in the buffer moves the node as the specification's bind does, accepted or refused |
| `RelayNode.Server.FinishData` | relay/udprelay/server.go:171-191 | The second section routes, rewrites the frame in place and forwards, exactly as specified, and emits nothing when it drops |
| `RelayNode.Server.RunJanitor` | relay/udprelay/server.go:211-225 | Any number of janitor passes move the node as that many machine steps and leave the reader where it was |
| `RelayNode.PassesOnlyTable` | relay/udprelay/server.go:211-225 | Janitor passes change nothing but the session table |
| `SessionTable.IndexRefinesHistory` | relay/udprelay/session.go:82-123 | In every run, an index entry for an address names a device bound at exactly that address, the last accepted BIND from the address was that device's, and that device's last accepted BIND was from that address |
| `SessionTable.ExactThroughoutIff` | relay/udprelay/session.go:98-104 | The index is the exact inverse of the bindings at every point of a run if and only if no accepted BIND reuses an address on record for another device |
| `SessionTable.SharerForgotten` | relay/udprelay/session.go:98-100 | When two devices share an address and the first moves away, the second stays bound but its address is no longer found |
| `SessionTable.BindExactIff` | relay/udprelay/session.go:82-111 | From an exact table a bind keeps it exact if and only if it does not reuse another device's address |
| `SessionTable.BindEffect` | relay/udprelay/session.go:82-111 | A bind adds exactly one device at the given address, moves no other, and changes the index at the new address and at the device's former one only |
| `SessionTable.DropEffect` | relay/udprelay/session.go:130-163 | Dropping a binding removes that device and its address from the index, and nothing else |
| `SessionTable.RefreshEffect` | relay/udprelay/session.go:166-179 | Refreshing changes one binding's time and nothing else |
| `SessionTable.TouchEffect` | relay/udprelay/session.go:166-179 | A keepalive sets the time one device was last heard from, if it is bound, and its session's, and changes no other binding, no address and no session |
| `SessionTable.RouteEffect` | relay/udprelay/session.go:130-163 | Routing answers the addressee's address if and only if both are bound and neither has expired; it drops exactly the expired one it meets first, with its address, and marks an unexpired sender as heard from |
| `SessionTable.EventKeepsAlive` | relay/udprelay/session.go:82-247 | A binding heard from recently enough outlives every table operation up to its idle timeout and its token's expiry, eviction included |
| `SessionTable.EvictEffect` | relay/udprelay/session.go:227-247 | An eviction keeps exactly the bindings heard from within the idle timeout whose token has not expired, unchanged, removes exactly the evicted bindings' addresses from the index, and leaves no empty session |
| `SessionTable.BindKeepsSound` | relay/udprelay/session.go:82-111 | A bind keeps the index sound against the history extended by that bind |
| `SessionTable.RouteKeepsSound` | relay/udprelay/session.go:130-163 | Routing, with the expired bindings it deletes, keeps the index sound |
| `SessionTable.TouchKeepsSound` | relay/udprelay/session.go:166-179 | A keepalive keeps the index sound |
| `SessionTable.EvictKeepsSound` | relay/udprelay/session.go:227-247 | An eviction keeps the index sound |
| `SessionTable.CapacityRespected` | relay/udprelay/session.go:82-94 | With a cap set, no sequence of table operations holds more sessions than the cap |
| `Sessions.SessionStore.Bind` | relay/udprelay/session.go:82-111 | Binds as the table specification does exactly when the network is known, there is no cap, or the cap is not reached, and otherwise refuses without effect |
| `Sessions.SessionStore.Lookup` | relay/udprelay/session.go:114-123 | Answers what the table specification answers |
| `Sessions.SessionStore.Route` | relay/udprelay/session.go:130-163 | Answers and changes the table as the specification does, including deletion of expired sender and peer |
| `Sessions.SessionStore.Touch` | relay/udprelay/session.go:166-179 | Marks the device's binding, if it is there, as heard from at this time, binds nobody and drops nobody, and leaves every other binding and the index alone |
| `Sessions.SessionStore.EvictIdle` | relay/udprelay/session.go:227-247 | For every order of visiting sessions and devices, leaves the same table; returns the number of sessions that are gone |
| `Sessions.SessionStore.SweepSession` | relay/udprelay/session.go:232-240 | The inner loop keeps exactly the surviving bindings and removes exactly the others' addresses |
| `Sessions.SessionStore.SweepOne` | relay/udprelay/session.go:231-245 | The outer loop's body sweeps one session and says whether it emptied it |
| `Sessions.AllSwept` | relay/udprelay/session.go:227-247 | Sweeping the sessions one after another, all of them, is the whole eviction |
| `Sessions.SweepExtends` | relay/udprelay/session.go:227-247 | Sweeping one more session extends a partial eviction and its count, whichever session it is |
| `Sessions.SessionStore.RecordRelayed` | relay/udprelay/session.go:182-187 | Adds to both counters, wrapping at 2^64 |
| `Sessions.SessionStore.RecordDropped` | relay/udprelay/session.go:190-194 | Adds one, wrapping at 2^64 |
| `RelayFrames.DecodeInvertsLayout` | relay/udprelay/protocol.go:83-102 | A frame decodes to an identifier and a rest if and only if it is the frame laid out from them |
| `RelayFrames.EncodeData` | relay/udprelay/protocol.go:74-80 | The buffer filled by copying is the laid-out DATA frame |
| `RelayFrames.CopyAt` | relay/udprelay/protocol.go:74-80 | Copying into a buffer replaces exactly the bytes copied over |
| `RelayFrames.RewriteDataPeer` | relay/udprelay/protocol.go:106-108 | Overwrites the identifier in place and leaves the type byte, the payload and the bytes beyond the frame |
| `RelayProxy.EndToEnd` | client/internal/relayproxy/relayproxy.go:160-229 | A non-empty payload from a bound device to a bound device in its network, with any janitor passes in between that evict neither, leaves the relay as one datagram to the addressee, which decodes to the sender's identifier and the first 1500 bytes of the payload |
| `RelayProxy.Traverse` | client/internal/relayproxy/relayproxy.go:160-241 | The whole way through both proxies and the relay: the receiving WireGuard is handed exactly the first 1500 bytes, at the address it last sent from |
| `RelayProxy.ThroughRelay` | relay/udprelay/server.go:160-192 | The relay forwards the frame once, to the addressee's address, stamped with the sender, whatever sparing janitor passes run between its two sections |
| `RelayProxy.FramingsAgree` | client/internal/relayproxy/protocol.go:42-59 | The client's and the relay's independent copies of the framing write and read the same frames, and decoding inverts encoding both ways |
| `RelayProxy.ThreeReads` | relay/udprelay/protocol.go:42 | What a payload loses on its way through the three fixed-size read buffers: everything past 1500 bytes, and nothing else |
| `RelayProxy.EncodeData` | client/internal/relayproxy/protocol.go:42-48 | The client's buffer filled by copying is its DATA frame |
| `RelayProxy.Proxy.PumpLocalToRelay` | client/internal/relayproxy/relayproxy.go:160-188 | One turn sends the framed datagram, remembers WireGuard's address and counts the bytes, or does nothing for an empty datagram |
| `RelayProxy.Proxy.PumpRelayToLocal` | client/internal/relayproxy/relayproxy.go:191-241 | One turn delivers exactly the payload of a DATA frame to WireGuard's last address, and follows acknowledgements and errors |
| `Routes.LookupIsLongest` | client/internal/netroute/netroute.go:52-58 | Lookup finds the route of the longest matching prefix (section 5.2.4.3 of RFC 1812), and nothing if and only if nothing matches |
| `Routes.ShapeLookup` | client/internal/netroute/netroute.go:52-58 | What a table with some pins and some captured halves looks up for every address |
| `LinuxRouter.Router.PinEndpoint` | client/internal/netroute/netroute_linux.go:57-65 | Replaces the host route, or changes nothing; a failure is a recorded failed command unless there is no gateway or device to route through |
| `LinuxRouter.Router.UnpinEndpoint` | client/internal/netroute/netroute_linux.go:67-73 | Removes the host route, treating one already gone as removed, and records the command with its outcome |
| `LinuxRouter.Router.CaptureDefault` | client/internal/netroute/netroute_linux.go:75-91 | Exactly the halves whose commands are recorded as succeeding lead to the tunnel; success means both IPv4 halves do; a failure is that of the IPv4 half it names, and the first half stays exactly when the second failed; every intermediate table only adds halves |
| `LinuxRouter.Router.ReleaseDefault` | client/internal/netroute/netroute_linux.go:93-110 | Removes exactly the halves that lead to the tunnel except those whose deletion is recorded as failed, and reports exactly an IPv4 failure; every intermediate table only removes such halves |
| `LinuxRouter.Router.Snapshot` | client/internal/netroute/netroute_linux.go:19-25 | Finds the table's default route if and only if it can be read and has a gateway and a device, and records the command |
| `LinuxRouter.Router.RunReplace` | client/internal/netroute/netroute_linux.go:112-119 | A command that succeeds replaces one route; one that fails changes nothing |
| `LinuxRouter.Router.RunDelete` | client/internal/netroute/netroute_linux.go:112-128 | A deletion removes one route that is there, says that it is not, or fails without effect |
| `Transport.TransportAddrPorts` | client/internal/tunnel/exit.go:297-333 | Lists each transport address and port once, and exactly those the peers are reached at, whatever the order of the peers: the relay's when a peer has a proxy, its own otherwise, and never a loopback address |
| `Transport.TransportEndpoints` | client/internal/tunnel/exit.go:262-293 | Lists each transport address once, and exactly those the peers are reached at, the relay's before a peer's own, loopback excepted |
| `Transport.TargetIff` | client/internal/tunnel/exit.go:262-333 | A peer is reached at an address and port if and only if these are its relay's, or its own when it has no relay, known and not loopback, with the port in 16 bits |
| `ExitNode.Tunnel.RunAll` | client/internal/tunnel/exit.go:69-199 | After any sequence of sets, clears and peer changes, on any host: at every recorded command, no snapshotted endpoint is looked up into the tunnel that the host itself had no route into it for, except when it is being unpinned after a command of the same change left a half of the default route there; the exit device is set exactly while the default route is captured; locked implies captured |
| `ExitNode.Tunnel.SetThenClear` | client/internal/tunnel/exit.go:69-199 | On a host with no routes of its own for the changed prefixes, setting an exit node and clearing it, or failing to set it, leaves the table as it was if and only if no command failed to delete a prefix it had installed and the capture did not stop on its second half; no other peer's width changes, and a peer not widened before is left widened if and only if narrowing it failed or it has the nil identifier; a firewall open before is left locked if and only if the clear's first command is recorded as failing to release it |
| `ExitNode.Tunnel.SetExitNode` | client/internal/tunnel/exit.go:69-138 | Engaged pins exactly the peers' transport addresses through the old default and captures the default; a failure is that of the command its result names, and leaves exactly the pins whose deletion is recorded as failed and the first half if the second could not be captured; an earlier exit node is torn down first, its lock before its routes, and the result says so if and only if a command of that failed; it locks the firewall if and only if it engages, was asked to, and every command for that is recorded as succeeding; a refused request changes nothing |
| `ExitNode.Tunnel.ClearExitNode` | client/internal/tunnel/exit.go:146-199 | A locked firewall is released by exactly one recorded command, before any other, and is open afterwards if and only if that command succeeded; then releases the default and unpins, leaving exactly what a command failed to delete, so on a clean host the table is the original if and only if none of those failed; succeeds if and only if the unlocking, the IPv4 release and the narrowing did; with nothing engaged it issues no command at all |
| `ExitNode.Tunnel.TearDown` | client/internal/tunnel/exit.go:172-193 | Releases a locked firewall first and then undoes the rest whatever failed; on a clean host the table is the original if and only if no deletion of a pin or captured half failed; reports failure if and only if the unlocking, an IPv4 release or the narrowing failed |
| `ExitNode.Tunnel.UnlockIf` | client/internal/tunnel/exit.go:175-177 | Issues one release if the firewall is locked and none if not; the firewall is open afterwards if and only if it was or the release succeeded |
| `ExitNode.Tunnel.ReleaseKillSwitch` | client/internal/tunnel/exit.go:175-177 | Records one release with its outcome, which alone decides whether the firewall is open |
| `ExitNode.Tunnel.Engage` | client/internal/tunnel/exit.go:91-125 | Without an exit node in place: engages and records it, or leaves exactly what its commands failed to delete |
| `ExitNode.Tunnel.Install` | client/internal/tunnel/exit.go:91-118 | Reads the default route, widens the peer and installs the routes around exactly the peers' transport addresses; each failure is that of the recorded command or write its result names, and is followed by a write that narrows the peer |
| `ExitNode.Tunnel.Record` | client/internal/tunnel/exit.go:120-125 | What is recorded describes the table as it is, so that it can be undone |
| `ExitNode.Tunnel.Rollback` | client/internal/tunnel/exit.go:106-117 | Leaves exactly the pins whose deletion is recorded as failed, and narrows the peer, recording whether that failed |
| `ExitNode.Tunnel.UndoRoutes` | client/internal/tunnel/exit.go:179-184 | Releases before unpinning and leaves exactly the captured halves and the pins whose deletion is recorded as failed |
| `ExitNode.Tunnel.Narrow` | client/internal/tunnel/exit.go:186-193 | A known peer is written narrow, with the outcome recorded; one that has left is recorded as such; the widened peers change by that write alone |
| `ExitNode.Tunnel.InstallRoutes` | client/internal/tunnel/exit.go:104-118 | Pins every endpoint before capturing, so that every command on the way is safe, and on failure leaves exactly what could not be deleted |
| `ExitNode.Tunnel.PinAll` | client/internal/tunnel/exit.go:104-112 | Pins in order until a command fails, safely at every command; exactly those before the failure are pinned |
| `ExitNode.Tunnel.UnpinAll` | client/internal/tunnel/exit.go:364-370 | Unpins every address it is given: exactly those whose deletion is recorded as failed stay |
| `ExitNode.Tunnel.PinOne` | client/internal/netroute/netroute_linux.go:57-65 | Adds one pin to several, or leaves the table when the recorded command fails |
| `ExitNode.Tunnel.PinOrRollback` | client/internal/tunnel/exit.go:104-112 | Pins all endpoints, or leaves exactly the pins that could not be deleted again |
| `ExitNode.Tunnel.Capture` | client/internal/tunnel/exit.go:114 | With every endpoint pinned, every command of the capture is safe; one that fails on the second half is recorded as leaving the first |
| `ExitNode.Tunnel.CaptureOrRollback` | client/internal/tunnel/exit.go:114-118 | Captures, or unpins and narrows and leaves exactly what could not be undone |
| `ExitNode.Tunnel.Release` | client/internal/tunnel/exit.go:179-181 | With every endpoint pinned, every command of the release is safe, and a captured half that stays is recorded as left with the tunnel |
| `ExitNode.Tunnel.Restore` | client/internal/tunnel/exit.go:179-193 | Undoes the routes and then the widening, by deletions alone, succeeding if and only if the IPv4 release and the narrowing did |
| `ExitNode.Tunnel.WidenAndInstall` | client/internal/tunnel/exit.go:96-118 | Widens the peer before any route is changed, and stops with nothing changed if that fails |
| `ExitNode.Tunnel.InstallAround` | client/internal/tunnel/exit.go:102-118 | The endpoints installed around are exactly those the peers are reached at, on success and on failure |
| `ExitNode.Tunnel.EngageLocked` | client/internal/tunnel/exit.go:91-137 | Engages, and then locks the firewall around every transport address exactly when that is asked for and every command for it succeeds, after all route commands |
| `ExitNode.Tunnel.SwitchTo` | client/internal/tunnel/exit.go:85-137 | Tears down an earlier exit node first, and stops if and only if a command or write of that is reported as failed |
| `ExitNode.Tunnel.ClearEngaged` | client/internal/tunnel/exit.go:146-199 | Clearing after engaging restores the table and narrows the peer unless a recorded command or write failed, and leaves the firewall locked if and only if its first command failed to release it |
| `ExitNode.Tunnel.UnpinOne` | client/internal/netroute/netroute_linux.go:67-73 | Removes one pin of several, or leaves the table when the recorded command fails |
| `ExitNode.Tunnel.EngageKillSwitch` | client/internal/tunnel/exit.go:335-362 | Succeeds if and only if there is a kill switch and both recorded commands, listing the local networks when they are allowed and locking, did; the lock's policy then names the tunnel, every peer's transport address and exactly the networks listed |
| `ExitNode.SwallowedOnlyWhenBroken` | client/internal/tunnel/exit.go:102-118 | In a record of safe commands, an endpoint that the host had no route into the tunnel for is looked up into it only after a command of the same change left a half of the default route there |
| `ExitNode.NeverSwallowed` | client/internal/tunnel/exit.go:102-118 | On any host, as long as nothing is captured or the endpoint is pinned, it is not looked up into the tunnel unless the host had a route for it there |
| `ExitNode.EngagedLookup` | client/internal/tunnel/exit.go:102-118 | While engaged, on any host, endpoints go out through the old default, and every other address in a captured half goes to the tunnel unless the host has a route for it that is longer than a half |
| `ExitNode.LeftoverHalfSwallows` | client/internal/tunnel/exit.go:114-118 | A half that stays captured after the pins are gone sends the endpoints in it into the tunnel: the outcome of a capture that fails on its second half |
| `ExitNode.ShapeSafe` | client/internal/tunnel/exit.go:102-118 | As long as nothing is captured, or every endpoint is pinned, the table is safe on any host, and on a clean one every endpoint goes where it went before or through the old default |
| `ExitNode.UndoneIff` | client/internal/tunnel/exit.go:172-184 | On a clean host an undo gives back the table if and only if no deletion of a pin or a captured half failed |
| `ExitNode.RolledBackIff` | client/internal/tunnel/exit.go:104-118 | On a clean host a failed attempt gives back the table if and only if no deletion failed and the capture did not stop on its second half |
| `PeerPaths.RunKeepsPaths` | client/internal/tunnel/peer.go:129-138 | Under every interleaving of negotiations, observer passes, removals and shutdown, every peer in the map has a proxy when relayed and none when direct or connecting, and each proxy is in exactly one place and closed at most once |
| `PeerPaths.RelayedProxyIsOpen` | client/internal/tunnel/peer.go:363-447 | In every run, a relayed peer in the map has a proxy that nobody has closed, nobody is about to close, and no other peer has |
| `PeerPaths.NegotiationSettles` | client/internal/tunnel/peer.go:227-447 | A negotiation that punched through leaves its peer direct without a proxy, one that fell back leaves it relayed with the proxy it made, one that failed leaves it offline; no other peer changes |
| `PeerPaths.AddingStarts` | client/internal/tunnel/peer.go:141-202 | A new device gets a connecting peer, and a negotiation if WireGuard took the peer; a known device gets neither |
| `PeerPaths.RetiringReleases` | client/internal/tunnel/peer.go:129-221 | Removal takes a peer out of the map and empties its slot before its proxy is closed, and shutdown does so for every peer, each proxy being closed once |
| `PeerPaths.FailureGoesOn` | client/internal/tunnel/peer.go:363-436 | A negotiation that finds no relay goes on to mark its peer offline; one whose proxy is refused closes that proxy first; no peer changes before |
| `ProxyLifetimes.AllClosedIff` | client/internal/tunnel/peer.go:129-447 | In every run, once every peer is out of the map and every goroutine has ended, each proxy ever built has been closed, exactly once, if and only if no negotiation installed one in a peer released before, without a direct path being found to that peer after |
| `ProxyLifetimes.LateProxyStaysOpen` | client/internal/tunnel/peer.go:205-221 | A run that leaves a proxy open: its peer is removed and released while the proxy is being set up |
| `ProxyLifetimes.FullIff` | client/internal/tunnel/peer.go:280-447 | In every run, a peer's slot is full if and only if a proxy was installed in it that no direct path or release has taken out since |
| `ProxyLifetimes.EveryPeerIsReleased` | client/internal/tunnel/tunnel.go:648-660 | In every run, every peer ever added is in the map, waits to be released by some goroutine, or has been released |
| `ProxyLifetimes.OpenIffInSlot` | client/internal/tunnel/peer.go:129-138 | In every run, with no goroutine left, a proxy has been closed exactly once if and only if no peer's slot holds it |
| `PeerPaths.NextKeepsModes` | client/internal/tunnel/peer.go:227-300 | Every locked section keeps modes and proxy slots in agreement |
| `PeerPaths.NextKeepsLocated` | client/internal/tunnel/peer.go:363-447 | Every step that creates, moves or closes a proxy keeps each proxy in one place |
| `PeerPaths.SwapKeepsLocated` | client/internal/tunnel/peer.go:438-444 | Installing a proxy takes the former one out to be closed |
| `Presence.MoveIsLastChange` | client/internal/tunnel/tunnel.go:563-566 | The recorded time of movement is that of the last pass whose reading differed from the one before it, and absent if there was none |
| `Presence.PassDecides` | client/internal/tunnel/tunnel.go:567-588 | After a pass with a reading, a peer whose counter moved less than 75 seconds ago keeps the mode found unless that is offline, which becomes relayed or direct as it has a proxy or not; any other peer is offline unless found connecting; the proxy is untouched |
| `Presence.SilentAt` | client/internal/tunnel/tunnel.go:566-588 | A pass 75 seconds after a stopped counter was first read steady finds the peer absent |
| `Presence.KeepaliveStaysPresent` | client/internal/tunnel/peer.go:39-48 | With passes at most two seconds apart, a peer whose counter has moved at least every 25 seconds from before the first pass on is never left offline by a pass once heard from |
| `Presence.StoppedGoesOffline` | client/internal/tunnel/tunnel.go:544-590 | With passes at most two seconds apart, a peer whose counter has stopped is left offline, unless found connecting, by a pass within 79 seconds of that and by every pass after it |
| `Presence.StoppedStaysOffline` | client/internal/tunnel/tunnel.go:544-590 | Every pass from 77 seconds after the counter stopped leaves the peer offline, unless it finds it connecting |
| `Presence.KeepaliveHappens` | client/internal/tunnel/peer.go:39-48 | Counters and passes such as the keepalive result speaks of exist |
| `Presence.ObservePeerModes` | client/internal/tunnel/tunnel.go:544-590 | One pass updates every peer that has a reading by the specification and no other |
| `Presence.Peer.Update` | client/internal/tunnel/tunnel.go:556-588 | The locked section updates the three fields by the specification |
| `Phases.RunIsLawful` | client/internal/tunnel/tunnel.go:227-274 | Every run's phases are Idle, Handshaking, Active and Dropped in turns, Idle, or a prefix of that |
| `Phases.DropsAreJustified` | client/internal/tunnel/state.go:91-156 | Every Dropped was entered from Active with an exit node set whose peer was missing or neither direct nor relayed |
| `Phases.ObservationDecides` | client/internal/tunnel/state.go:91-156 | After any run, an observation leaves a running tunnel Dropped if and only if its exit node is not reachable and it was Dropped or, with one set, Active; Active if and only if the exit node is reachable, or there is none and it was not Dropped |
| `Phases.StartAndStopDecide` | client/internal/tunnel/tunnel.go:227-274 | Starting makes a tunnel handshake and stopping makes it idle; one that cannot register stays handshaking for good |
| `Phases.NoExitNeverDrops` | client/internal/tunnel/state.go:91-120 | A run that never has an exit node never reaches Dropped |
| `Phases.Status.SetState` | client/internal/tunnel/state.go:42-63 | Setting the current phase again is no transition and does not move its time; any other is entered at the time of the call |
| `Phases.Status.ObserveHealth` | client/internal/tunnel/state.go:91-156 | Whatever order the peers are visited in: a reachable exit node makes the phase Active; a missing or unreachable one makes Active into Dropped and leaves the rest; without one Handshaking becomes Active and the rest stays; a new phase is entered at the time of the call |
| `Phases.Status.ActiveSince` | client/internal/tunnel/state.go:74-81 | Answers exactly while the last phase entered is Active, and then with the time at which it was entered, however many observations have come since |
| `Disco.Intercept` | client/internal/disco/bind.go:63-90 | Working in place, keeps exactly the packets that are not disco, in order, byte for byte, with their sizes and senders, when the buffers are large enough; and hands each well-formed disco packet to the handler once, in order, with its original bytes |
| `Disco.Compact` | client/internal/disco/bind.go:70-85 | The loop keeps exactly what passes and dispatches exactly what is delivered |
| `Disco.Sort` | client/internal/disco/bind.go:71-85 | One turn of the loop: a disco packet is dispatched, any other is kept next to those kept before |
| `Disco.Keep` | client/internal/disco/bind.go:77-84 | Keeping a packet preserves those kept before it and those still to come |
| `Disco.MoveDown` | client/internal/disco/bind.go:80-82 | The packet moved down is byte for byte the original when the buffer has room, and no other entry changes |
| `Disco.FilterIsSubsequence` | client/internal/disco/bind.go:63-115 | What is kept and what is delivered are the in-order subsequences at the positions of non-disco and of well-formed disco packets |
| `Disco.WireGuardPacketsStay` | client/internal/disco/disco.go:65-67 | No packet that starts with a byte from 1 to 4 is ever taken out |
| `Disco.DecodeInvertsEncode` | client/internal/disco/disco.go:70-92 | A packet decodes to a message if and only if it starts with that message's encoding and the message is a ping or a pong |
| `Disco.WireFormat` | client/internal/disco/disco.go:65-92 | The bytes on the wire: the six of the marker, the kind, eight of the transaction and sixteen of the sender, 31 in all |
| `Disco.Dispatch` | client/internal/disco/bind.go:93-115 | Calls the handler exactly for a decodable packet when there is one |
| `KillSwitch.GeneratorsAgreeIff` | client/internal/killswitch/killswitch_linux.go:57-120 | For every policy and every packet of a new flow, first match over the nft chain and last match over the pf rules agree if and only if the policy permits the packet or both treat it alike as DHCP; other than for DHCP both mean the policy |
| `KillSwitch.NftMeaning` | client/internal/killswitch/killswitch_linux.go:57-120 | The chain accepts exactly what is tracked, permitted, or DHCP by its destination port |
| `KillSwitch.PfMeaning` | client/internal/killswitch/killswitch_darwin.go:56-89 | The rules pass exactly what is permitted, or DHCP by both its ports |
| `KillSwitch.GeneratorsDifferOnDhcp` | client/internal/killswitch/killswitch_darwin.go:56-89 | A DHCPv6 packet to the client port is let out by one and not by the other |
| `KillSwitch.TransportGetsOut` | client/internal/tunnel/exit.go:297-333 | Under a policy that covers the peers, every datagram to a peer's transport address gets out on both platforms |
| `KillSwitch.BuildChains` | client/internal/killswitch/killswitch_linux.go:57-120 | The rules appended in loops are the specified chain |
| `KillSwitch.BuildRules` | client/internal/killswitch/killswitch_darwin.go:56-89 | The rules appended in loops are the specified ruleset |
| `KillSwitch.LocalRules` | client/internal/killswitch/killswitch_darwin.go:56-89 | One match for each valid local network, in order |
| `Encoding.HexRoundTrip` | client/internal/wireguard/wireguard.go:303-320 | Decoding hexadecimal inverts encoding it (section 8 of RFC 4648) |
| `Encoding.Base64RoundTrip` | client/internal/wireguard/wireguard.go:303-320 | Decoding base64 inverts encoding it (section 4 of RFC 4648) |
| `Encoding.Base64Vectors` | client/internal/wireguard/wireguard.go:303-320 | The encoder gives the vectors of section 10 of RFC 4648, padded and not |
| `Encoding.HexVector` | client/internal/wireguard/wireguard.go:303-320 | The encoder gives a base16 vector of section 10 of RFC 4648, in lower case |
| `Uapi.KeyRoundTripIff` | client/internal/wireguard/wireguard.go:303-320 | An accepted key comes back from its hexadecimal form unchanged if and only if it is canonical base64 |
| `Uapi.PrintParseRoundTripIff` | client/internal/wireguard/wireguard.go:266-389 | The interface block followed by any list of peers with accepted keys reads back as those peers, in order, with the same key, endpoint and allowed addresses, if and only if every key is canonical and no field holds a line break or ends in white space |
| `Uapi.ParsedIsGenuine` | client/internal/wireguard/wireguard.go:332-389 | Whatever the text, every parsed peer has a key an encoder wrote and fields without line breaks or trailing white space |
| `Uapi.BuildInterfaceUapi` | client/internal/wireguard/wireguard.go:266-275 | Prints the interface's lines, or fails on a key that is not accepted |
| `Uapi.BuildPeerUapi` | client/internal/wireguard/wireguard.go:279-301 | Prints a peer's lines, or its removal, or fails on a key that is not accepted |
| `Uapi.ParseStats` | client/internal/wireguard/wireguard.go:332-389 | The loop with a current peer computes the fold over all lines, failing exactly when some line does |
| `Uapi.FeedLine` | client/internal/wireguard/wireguard.go:345-383 | One line changes the parser as specified, or is skipped when it has no equals sign |
| `Uapi.PrintAllowed` | client/internal/wireguard/wireguard.go:292-299 | The loop prints one line for each allowed address, in order |
| `UapiDevice.PeerIsConfigured` | client/internal/wireguard/wireguard.go:279-301 | On any device, the text printed for a peer sets its keepalive, sets its endpoint if it has one and keeps it otherwise, makes its allowed addresses exactly those given if there are any and keeps them otherwise, and changes nothing else |
| `UapiDevice.PeerIsRemoved` | client/internal/wireguard/wireguard.go:279-287 | On any device, the text printed for a removal removes that peer and no other |
| `UapiDevice.InterfaceIsConfigured` | client/internal/wireguard/wireguard.go:266-275 | On any device, the text printed for the interface sets its key and port and nothing else |
| `UapiDevice.ReportReadsBack` | client/internal/wireguard/wireguard.go:332-389 | What a device reports of any list of peers parses to exactly those peers, in order, with endpoints, allowed addresses, handshake times and 64-bit counters |
| `UapiDevice.NumberReadsBack` | client/internal/wireguard/wireguard.go:364-380 | Every number printed in decimal reads back as itself |
| `UapiDevice.OutOfRange` | client/internal/wireguard/wireguard.go:364-380 | A counter past 64 bits reads as the largest, one that is no number as zero, and a handshake time past 63 bits is passed over |
| `UapiDevice.BeforePeersIsIgnored` | client/internal/wireguard/wireguard.go:348-385 | Whatever the device reports before its first peer is ignored |
| `UapiDevice.BadKeyFails` | client/internal/wireguard/wireguard.go:353-359 | A peer's key that is not hexadecimal fails the whole report, wherever it stands |
| `Pairing.AtMostOnceIff` | backend/internal/auth/pairing.go:105-139 | Over any interleaving of calls, a token that expires is accepted at most once if and only if no call spends it again at a clock reading past its expiry |
| `Pairing.AcceptedIff` | backend/internal/auth/pairing.go:130-138 | After any run, a checked call is accepted unless its id was accepted before and the time until which that is remembered has not passed |
| `Pairing.AcceptancesWereChecked` | backend/internal/auth/pairing.go:105-139 | In every run, each acceptance is of a token that an earlier step of the same call checked before its expiry |
| `Pairing.CallsWereChecked` | backend/internal/auth/pairing.go:105-129 | In every run, a call carries a token only once a step of it has checked that token, with an id, before its expiry |
| `Pairing.AcceptedTwice` | backend/internal/auth/pairing.go:130-150 | A run in which one token is accepted twice: the second call is checked just before the expiry and takes the lock just after it |
| `Pairing.RememberedAfterIff` | backend/internal/auth/pairing.go:132-150 | After an accepted call exactly the unexpired accepted ids are remembered beside its own, and all of them are unexpired at the sweep's reading if and only if the call's token is |
| `Pairing.RunKeepsInvariant` | backend/internal/auth/pairing.go:105-150 | Every run remembers exactly the accepted ids whose time has not been seen to pass, for the time of their tokens |
| `Pairing.AliveWhenIssuedIff` | backend/internal/auth/pairing.go:58-70 | A token is alive whenever it is issued if and only if its lifetime is a second at least |
| `Pairing.PairingManager.Issue` | backend/internal/auth/pairing.go:83-101 | The token carries the ids given, is current when issued, expires at the whole second at or before the time shown to the caller, and less than a second before it |
| `Pairing.PairingManager.Sweep` | backend/internal/auth/pairing.go:143-150 | In any order of visiting, drops exactly the ids whose time has passed, and changes none of the others |
| `Pairing.PairingManager.Consume` | backend/internal/auth/pairing.go:105-139 | Accepts if and only if the token parses, has an id, has not expired when checked, and its id is not remembered or its remembered time has passed at the lock; an accepted id is then remembered until its token expires, beside exactly the unexpired ones; moves as the step machine does |
| `DeviceKeys.RunKeepsInvariant` | client/agent/devicekey.go:26-99 | Over any run of any number of installations, no installation has one public key on two networks and none holds a key that another made |
| `DeviceKeys.KeyIsStable` | client/agent/devicekey.go:26-61 | A network's key stays the same, and is what the next request for it returns, until that network is reset or forgotten |
| `DeviceKeys.FreshKeyIsNotRefused` | client/agent/agent.go:494-506 | After a reset, whatever everybody else does meanwhile and whoever is signed in, the next registration uses the fresh key and is not refused for it |
| `DeviceKeys.RotationReachesIff` | client/agent/agent.go:421-440 | A rotated key becomes a network's key if and only if the network has none yet |
| `DeviceKeys.RegistrationStays` | backend/internal/usecase/coordination_service.go:103-141 | A registered key stays with its user and network until its device is removed |
| `DeviceKeys.DeviceKeyKeepsDistinct` | client/agent/devicekey.go:26-61 | Giving a network a key, its own, the installation's or a new one, keeps keys distinct |
| `DeviceKeys.OthersLeaveKey` | backend/internal/usecase/coordination_service.go:103-141 | Nobody but its holder, for the network it is held for, registers a key |
| `DeviceAgent.Agent.Connect` | client/agent/agent.go:494-506 | At most two attempts, and two exactly when the first was answered that the user is not a member or that another holds the key, and the key could be replaced; a member is never refused in the end, and a second attempt of a member that meets no fault ends up connected with the fresh key registered; somebody who is not a member is refused after two |
| `DeviceAgent.Agent.TryConnect` | client/agent/agent.go:508-729 | An attempt registers with the network's key, is refused exactly for a permission error, and is up exactly when accepted, or remembered while the server fails, and given an address |
| `DeviceAgent.Agent.DeviceKey` | client/agent/devicekey.go:26-61 | A network's own key is returned as it is; otherwise the installation's key is, if it is complete and no network has it, and a new one if not; it is stored for that network and nothing else changes, or nothing is stored |
| `DeviceAgent.Agent.KeyTaken` | client/agent/devicekey.go:92-99 | Finds whether some network has the key, in any order of visiting |
| `DeviceAgent.Agent.ResetDeviceKey` | client/agent/devicekey.go:68-89 | Replaces the network's key and drops the address and device id that came with it, and leaves every other network and the installation's key |
| `DeviceAgent.Agent.ForgetNetwork` | client/agent/agent.go:399-408 | Removes the network and nothing else, or reports that it was not there |
| `DeviceAgent.Agent.RotateDeviceKey` | client/agent/agent.go:421-440 | Replaces the installation's key and clears every network's device id, leaving the networks' own keys |
| `DeviceAgent.CoordinationService.RegisterDevice` | backend/internal/usecase/coordination_service.go:90-145 | Each answer with its exact condition: membership first, then the network, then the key's owner; a key is recorded exactly when accepted |
| `Ownership.OneOwnerIff` | backend/internal/usecase/network_service.go:45-88 | However operations interleave, an existing network has an owner if and only if the second write of its creation succeeded, and then exactly its creator |
| `Ownership.SeatedIff` | backend/internal/usecase/network_service.go:72-80 | A network counts as seated exactly when that write was made |
| `Ownership.OwnershipIsPermanent` | backend/internal/usecase/network_service.go:283-343 | Whatever happens after, an owner's row stays if and only if the network does |
| `Ownership.AdminChangeIff` | backend/internal/usecase/network_service.go:283-343 | However operations interleave, who administers a network changes only with a write; and a write that is neither its owner's action nor an administrator leaving changes it if and only if it lands on a row changed since it was read |
| `Ownership.MemberLossIsAuthorised` | backend/internal/usecase/network_service.go:188-343 | However operations interleave, a member's row disappears only with the network at its owner's hand, by the member leaving, or by an operation that read its caller's row as owner or administrator |
| `Ownership.NewRowIsInvited` | backend/internal/usecase/network_service.go:45-251 | However operations interleave, a row appears only as the creator's owner row, or as a member's for a user who presented the network's code while it was enabled and unexpired |
| `Ownership.CallerWasRead` | backend/internal/usecase/network_service.go:283-343 | In every run, the role an operation holds its caller to have is one it read from the caller's row at an earlier step |
| `Ownership.JoinerWasInvited` | backend/internal/usecase/network_service.go:204-251 | In every run, a user being joined presented the network's code, enabled and unexpired, at an earlier step of that operation |
| `Ownership.AloneAdminChange` | backend/internal/usecase/network_service.go:283-343 | Run one at a time, only the owner changes administrators, or one of them leaving |
| `Ownership.AloneKeepsOwned` | backend/internal/usecase/network_service.go:45-343 | Run one at a time, operations keep every owner |
| `Ownership.OrphanIsReachable` | backend/internal/usecase/network_service.go:68-80 | A creation whose second write fails leaves a network that nobody owns |
| `Ownership.RacedDemotionIsReachable` | backend/internal/usecase/network_service.go:291-309 | An administrator's change to a member, checked before the owner promotes that member and written after, takes the promotion back |
| `Ownership.RunKeepsInvariant` | backend/internal/usecase/network_service.go:45-343 | Every run keeps owner rows with creators and what operations carry in agreement with what they read |
| `Networks.NetworkService.Create` | backend/internal/usecase/network_service.go:45-88 | Two writes, the second of which can fail after the first; succeeds if and only if the request is valid and both are made, and then the creator is its owner |
| `Networks.NetworkService.Join` | backend/internal/usecase/network_service.go:204-251 | Succeeds if and only if the code is right, enabled and unexpired and the user is found to be a member or can be added; adds the user as a member exactly when not there, also when their membership could not be read |
| `Networks.NetworkService.UpdateMemberRole` | backend/internal/usecase/network_service.go:283-312 | Succeeds if and only if both are members, the target is no owner, the new role is not owner, and the caller is the owner, or an administrator keeping a member a member; then sets that role and nothing else |
| `Networks.NetworkService.RemoveMember` | backend/internal/usecase/network_service.go:317-343 | Succeeds if and only if both are members, the target is no owner, and the caller is the target, the owner, or an administrator removing a member; then removes that row and nothing else |
| `Networks.NetworkService.Delete` | backend/internal/usecase/network_service.go:188-201 | Succeeds if and only if the caller owns the network and it can be deleted; it goes with exactly its members' rows |
| `Networks.NetworkService.Update` | backend/internal/usecase/network_service.go:152-185 | Succeeds if and only if the caller is an owner or administrator and the row can be read, is valid and can be written; writes back the row it read with the new name, creator and code untouched |
| `Networks.NetworkService.RotateInvite` | backend/internal/usecase/network_service.go:254-271 | Succeeds if and only if the caller is an owner or administrator and the network can be written; replaces the code and drops its expiry, and nothing else |
| `Networks.NetworkService.DropMembers` | backend/internal/repository/embedded/repos.go:268-284 | Removes exactly the network's member rows |

## Left out

- Sockets, gRPC, HTTP and WebSocket transports, and the relay's acknowledgement and error replies: inputs and outputs of steps here.
- Cryptography: signatures, token parsing, key generation, bcrypt, TOTP, certificate pinning and OAuth are inputs.
- Relay sessions and bindings are values here; the pointers to them never leave the table's lock, so no aliasing is lost.
- Route metrics, several default routes, the text that `ip route` prints, and other programs changing routes at the same time.
- Windows and macOS routing and the Windows firewall, which are scripts run by another program.
- Peers that become known after the endpoints are listed are not pinned, and a peer that falls back to the relay narrows its allowed addresses again; the exit-node results are about the listed endpoints.
- Concurrent calls to set and clear an exit node: they are run one at a time here.
- WireGuard's configured endpoint after a direct path is found, which the code does not write.
- Rendering firewall rules as text, and connection tracking in pf: rules are values, and packets of tracked flows are told apart for nft only.
- Peers and proxies are a state machine over locked sections rather than objects with locks; negotiations that outlive their peer are in it, and that goroutines end at all is not claimed.
- The discovery prober's table of outstanding pings and its round-trip times.
- The device that reads and writes the configuration text is WireGuard's own; `UapiDevice.dfy` models what the text this code prints and reads means to it, not its handling of malformed settings.
- ExitNode.Tunnel.SetExitNode: a router command that fails is taken to have changed nothing, apart from a capture that fails after its first half.
- Disco.Intercept: what is kept is byte-exact only if every buffer is large enough for every packet moved into it, as copying truncates otherwise.
- DeviceAgent.Agent.TryConnect: the tunnel that is brought up, the cached registration and the relays are not modelled, only what an attempt does to the keys and the registry.
- Two registrations of one key at the same moment, which the database's uniqueness constraint settles.
- Ownership.OneOwnerIff: nobody can name a network before its creation has returned, since its id and code are random.
- Invitation codes are compared as they are, without folding case; of a network's descriptive fields only its name is kept.
- Postgres, Redis, the embedded store's files, devices' addresses, audit records, dashboards and the user interfaces.
