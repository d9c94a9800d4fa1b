# netop in Dafny

netop is a one-shot command line tool that edits state shared by the whole
host: the routing table, `resolv.conf` with its immutable bit and ownership
marker, `ip_forward`, firewall rules, and small state files. A later process
has to undo what an earlier one did. This project models that shared state as
values (`VpnLifecycle.World`, `Dns.ResolvConf`, `DhcpServer.Host`, a list of
routes, a list of rules), each command as a run of a fresh manager over it, and
proves what holds over any number of such commands. The algorithms and parsers
the commands rest on are modelled next to them.

| file | part of the program |
|---|---|
| `Strings.dfy` | the string functions of Go's library that the program uses |
| `Routes.dfy` | the route list: `ReplaceDefault`, `SetDefaultForIface`, deletion, metrics |
| `Dns.dfy` | who may write `resolv.conf`, and what is read back from it |
| `VpnState.dfy` | the `active-vpn` record |
| `VpnLifecycle.dfy` | `Connect` and `Disconnect`, step by step |
| `VpnRuns.dfy`, `VpnRoutes.dfy`, `VpnDns.dfy` | runs of connects and disconnects: the default route, the other routes, and name servers |
| `WgParse.dfy` | the two passes over a WireGuard configuration |
| `EditDistance.dfy` | edit distance and field suggestion |
| `Aliases.dfy` | network lookup through aliases and a growing cache |
| `DaemonProfiles.dfy` | the profile validator and the VPN listing that depends on it |
| `Firewall.dfy`, `DhcpServer.dfy` | the sharing DHCP server across processes |
| `Cleanup.dfy`, `RunConnect.dfy` | interrupt cleanups and what an interrupt leaves behind |
| `WifiScan.dfy` | scan reduction and quoting for wpa_supplicant |

`dafny verify dfyconfig.toml` checks the project.

Where the source changes fields, the model has a class whose methods follow the
source branch by branch and are proved equal to a specification function on
values (`VpnManager.Connect` to `AfterConnect`, `Resolver.SetDNS` to
`AfterSetDNS`, `DhcpManager.Stop` to `AfterStop`); the lemmas are about those
functions and about sequences of them. Some of them say in the program's own
literals what such a function leaves or accepts, without the functions it is
built from (`GatewayProtectsEndpoint`, `ClearMeans`, `EntriesMean`,
`NamedStatus`, `NatRulesShare`). Calls into code outside the model
(processes, netlink, iptables, wgctrl, DNS resolution) are choices of success
or failure in an `Env`, or function parameters (`Lib`, `validIP`,
`parseFloat`), so every statement holds for all of them.

## Where the code keeps less than it seems to

- A failed write of the VPN state file is only logged. For a gateway-mode
  tunnel the original default route is then recorded nowhere:
  `VpnRuns.ConnectTracksIff` says that this is the only way to lose it, and
  `VpnRuns.LostRecord` gives the run.
- The name servers of before a VPN are saved as one comma-separated field of a
  `|`-separated file. An entry with a comma can turn into further servers
  (`VpnDns.HiddenAddress`); an entry with a `|` cuts the list short, and then the
  VPN's own servers can stay for good (`VpnDns.CutOffServers`); so they do when
  `resolv.conf` could not be read at connect time, and when the record could not
  be written (`VpnDns.UnrecordedServersStay`). A write of `resolv.conf` that
  stops halfway drops the snapshot as well. `VpnDns.ServersAfterDisconnect` says
  what is left after one recorded connect and one disconnect of such a VPN, and
  exactly when that is what was there before.
- Restoring the servers of before goes through `SetDNS`: a chain of VPNs that
  took over DNS ends with `resolv.conf` marked and immutable even if it was
  neither before, so that later DHCP renewals are ignored
  (`VpnDns.ChainRestoresServers`).
- A disconnect that can neither delete a WireGuard link nor probe for it reports
  success and forgets the tunnel, which is still up: `VpnRuns.TunnelLeftUp`, and
  as an exact condition in `VpnRuns.ConnectThenDisconnect`.
- A failed WireGuard connect ignores whether deleting its link worked, and
  deletes a leftover link of the same name together with its routes; a failed
  daemon connect can leave the immutable bit lifted.
  `VpnRuns.FailedConnectLeavesNothing` says exactly when each happens;
  `VpnRuns.FailedConnectLeavesLink`, `VpnRuns.FailedConnectDropsRoute` and
  `VpnRuns.FailedConnectLiftsLock` are such runs.
- `EnableNAT` does not duplicate a rule that the host already has, but the
  teardown deletes it (`DhcpServer.HostRuleDeleted`); and `ip_forward` is restored
  only when it could be read as `0` or `1`.
- A stop only logs that iptables or `ip_forward` could not be changed, reports
  success and removes the record: the rules stay, and nothing is left to retry
  from (`DhcpServer.RulesLeftBehind`). `DhcpServer.StartThenStop` states exactly
  when rules and forwarding are what they were before the start, whatever fails
  in the stop.
- A start whose second or third rule cannot be installed leaves the rules before
  it, even when it rolls back (`DhcpServer.FailedStartLeavesRule`).
- When the DHCP server's state file cannot be written, a stop from another
  process leaves the firewall rules behind and turns forwarding off
  (`DhcpServer.UnsavedRulesStay`).
- A stop that is retried deletes a second copy of a rule that was there more than
  once (`DhcpServer.SecondCopyDeleted`). And a stop that cannot make sense of the
  process number fails and deletes the pid file, so that the retry succeeds and
  removes the record while dnsmasq still runs. `DhcpServer.FailedStopCanBeRetried`
  has the exact condition of each difference to a first success.
- An alias more than five hops from a network is not found, but may be found
  after a nearer name was cached (`Aliases.FoundOnlyLater`): what never changes
  is an answer that was found (`Aliases.AnswersNeverChange`).
- A scan dump with an SSID, or a readable signal or frequency, before its first
  BSS header makes the parser dereference nil (`WifiScan.LoneSSID`);
  `WifiScan.ParseScanResults` returns `None` for exactly those dumps.

## Model

| member | source | states |
|---|---|---|
| `VpnRuns.RunsTrackTheOriginal` | pkg/vpn/vpn.go:126-212 | over every run of connects and disconnects, in any processes and with any step failing but the record's write of a gateway-mode tunnel, the record names the first default route of before the run whenever there is a record, and otherwise the table's first default is that route |
| `VpnRuns.ConnectTracksIff` | pkg/vpn/vpn.go:120-215 | one connect keeps track of the original default if and only if it does not succeed, does not move the default, or gets its record written, all read off the host and the environment before the call |
| `VpnRuns.ConnectSucceedsIff` | pkg/vpn/vpn.go:120-199 | exactly when a connect succeeds, in terms of the host's links and record and of which foreign calls work |
| `VpnRuns.LostRecord` | pkg/vpn/vpn.go:200-214 | a concrete gateway-mode connect with a failed state write after which nothing names the original default |
| `VpnRuns.DisconnectTracks` | pkg/vpn/vpn.go:218-318 | a disconnect keeps track of the original default, and either clears the record or leaves the host as it was |
| `VpnRuns.ConnectThenDisconnect` | pkg/vpn/vpn.go:1094-1215 | gateway connect, then disconnect from another process: one default with the original interface and gateway, no endpoint route, no record, every other route as it was; the tunnel and its routes are gone if and only if its link could be deleted |
| `VpnRuns.TunnelLeftUp` | pkg/vpn/vpn.go:286-303 | a concrete disconnect that succeeds and clears the record while the tunnel stays up |
| `VpnRuns.FlipUndone` | pkg/vpn/vpn.go:379-411 | deleting the tunnel and its recorded endpoint route takes back everything the flip added, except that earlier defaults stay cleared |
| `VpnRuns.FlipUndoneInPlace` | pkg/vpn/vpn.go:379-411 | the same when the tunnel's link stays |
| `VpnRuns.GatewayConnected` | pkg/vpn/vpn.go:1169-1206 | what table, links and record look like after a successful gateway connect |
| `VpnRuns.GatewayProtectsEndpoint` | pkg/vpn/vpn.go:1169-1206 | after a successful gateway connect with no record before, a /32 route to the endpoint over the first default is the only one to that address and the record names it, if and only if gateway, interface and endpoint address are there, both addresses are IPv4 and the interface is a link; otherwise no route to it is new and the record names none |
| `VpnRuns.RecordNames` | pkg/vpn/vpn.go:150-212 | the record of a connect holds name, type, the default gateway and interface of before, and for each type the interface that its teardown takes down |
| `VpnRuns.TypesByName` | pkg/vpn/vpn.go:164-194 | the four type names, each to its own type and back; any other is none of them |
| `VpnRuns.StopDropsTunnel` | pkg/vpn/vpn.go:272-318 | stopping takes away the recorded link, or `tun0` or `wg0` without one, with its routes and nothing else; for the daemons nothing |
| `VpnRuns.DaemonComesUp` | pkg/vpn/vpn.go:814-1088 | when OpenVPN, Tailscale and NetBird come up, what they change of links and routes, and that exactly accepted DNS lifts the immutable bit |
| `VpnRuns.GuessIsFirstPhysical` | pkg/vpn/vpn.go:415-463 | the guess makes the first route with a gateway on an interface that is no VPN's the only default, and leaves a table without one alone |
| `VpnRuns.RestoredOrGuessed` | pkg/vpn/vpn.go:392-411 | the recorded default comes back exactly when its interface is a link and its gateway, if any, an address; otherwise the guess decides |
| `VpnRuns.EndpointForgotten` | pkg/vpn/vpn.go:379-389 | a manager forgets the endpoint of a VPN that it took down, and nothing else; a failure leaves its memory as it is |
| `VpnRuns.DisconnectByName` | pkg/vpn/vpn.go:218-269 | a disconnect fails and changes nothing without a record, or when record and request both have a name and they differ; otherwise the name makes no difference |
| `VpnRuns.DisconnectRestoresDNS` | pkg/vpn/vpn.go:1242-1251 | a disconnect removes the record and sets the recorded servers, split at commas, or leaves DNS alone when there are none |
| `VpnRuns.LegacyDropsLinks` | pkg/vpn/vpn.go:322-373 | a record without a type takes all links of the fallback with it, with their routes, and nothing else |
| `VpnRuns.GatewayDisconnected` | pkg/vpn/vpn.go:272-318 | what a new process makes of such a record, whether or not the link can be deleted |
| `VpnRuns.NothingOnMissingLink` | pkg/vpn/vpn.go:1120-1130 | without a leftover link of the tunnel's name, "every other route" is literal |
| `VpnRuns.FailedConnectLeavesNothing` | pkg/vpn/vpn.go:120-199 | a failed connect writes no record, marker or DNS text; no link of the tunnel's name is there afterwards, the links are among those of before, the routes are the same, and resolv.conf is as before, each if and only if a condition on the host and the environment |
| `VpnRuns.FailedConnectDropsRoute` | pkg/vpn/vpn.go:1120-1137 | a concrete failed connect that deletes a leftover link with its route |
| `VpnRuns.FailedConnectLeavesLink` | pkg/vpn/vpn.go:1132-1168 | a concrete failed connect whose link stays because deleting it failed |
| `VpnRuns.FailedConnectLiftsLock` | pkg/vpn/vpn.go:896-989 | a concrete failed NetBird connect that leaves resolv.conf unlocked |
| `VpnRuns.FailedDisconnectChangesNothing` | pkg/vpn/vpn.go:218-269 | a disconnect that returns an error changes neither host nor memory, so it can be retried |
| `VpnRuns.UndoneHasOriginalDefault` | pkg/vpn/vpn.go:392-411 | restoring from a record leaves exactly one default, the recorded one, and only the endpoint route is missing besides |
| `VpnRuns.BringUpTracks` | pkg/vpn/vpn.go:164-194 | only a successful gateway-mode WireGuard bring-up moves the first default, and then to the tunnel |
| `VpnRuns.RecordReadsBack` | pkg/vpn/vpn.go:1334-1386 | type, interface, gateway and endpoint of a written record are read back unchanged, the name up to leading white space, the DNS field up to its first separator |
| `VpnRoutes.RunsLeakNoRoutes` | pkg/vpn/vpn.go:126-212 | over every run, whatever else fails and whether or not tunnels could be deleted, the non-default routes of all other links stay what they were, in order, and the routes to endpoints are exactly the one that the record names; so none is left once no VPN is recorded |
| `VpnRoutes.RunsStayTidy` | pkg/vpn/vpn.go:126-212 | the invariant behind it, from any recorded state |
| `VpnRoutes.UndoneIsTidy` | pkg/vpn/vpn.go:379-411 | undoing a recorded VPN removes its endpoint route and nothing else of other links |
| `VpnRoutes.BringUpTidies` | pkg/vpn/vpn.go:1094-1215 | a bring-up adds at most one route to an endpoint, and remembers which |
| `VpnDns.ChainRestoresServers` | pkg/vpn/vpn.go:1222-1251 | after any chain of connects and disconnects that leaves no record, resolv.conf names the valid name servers of before the chain, provided there was at least one, a record keeps them and no command of the chain loses them; its marker and immutable bit are what the effects of the chain's commands make of those of before |
| `VpnDns.ServersAfterDisconnect` | pkg/vpn/vpn.go:1222-1251 | after one connect that got its record and one disconnect of a VPN with servers of its own: what resolv.conf names, for every resolv.conf before and every outcome of each read and write of it; and if and only if which condition on the entries of before that is what it named before |
| `VpnDns.UnrecordedServersStay` | pkg/vpn/vpn.go:200-214 | the same when the record could not be written: what resolv.conf names, and that every later disconnect fails and changes nothing |
| `VpnDns.RunsKeep` | pkg/vpn/vpn.go:138-144 | throughout such a run the original servers are recoverable from the record's field if there is one and named by resolv.conf otherwise, and marker and bit follow the commands' effects |
| `VpnDns.MarkedOnceTaken` | pkg/network/network.go:143-156 | once a VPN's servers were taken, commands that leave DNS alone leave the file marked and immutable, whatever it was before |
| `VpnDns.BringUpApplies` | pkg/vpn/vpn.go:1222-1238 | a bring-up that takes the VPN's DNS settings does so as `SetDNS` does, with a snapshot exactly when that worked and the file could be read; any other leaves resolv.conf alone but for a daemon's unlock |
| `VpnDns.SnapshotPieces` | pkg/vpn/vpn.go:1334-1386 | of a snapshot that was joined, written, read and split exactly these pieces of the entries are left |
| `VpnDns.SnapshotIsFaithful` | pkg/vpn/vpn.go:1222-1251 | with no entry hiding an address the pieces name the same addresses if and only if none is cut off, and with none cut off if and only if no entry hides one |
| `VpnDns.HiddenAddress` | pkg/vpn/vpn.go:1242-1251 | a connect and a disconnect after which one server has become two |
| `VpnDns.CutOffServers` | pkg/vpn/vpn.go:1334-1386 | a connect and a disconnect after which the VPN's server is still the only one |
| `VpnDns.RestoreNames` | pkg/vpn/vpn.go:1242-1251 | restoring a field that holds the valid servers makes resolv.conf name exactly those, marked and immutable |
| `VpnDns.SnapshotRecovers` | pkg/vpn/vpn.go:1222-1238 | the field read back from a record holds the valid servers, when resolv.conf's entries keep them |
| `VpnState.RoundTrip` | pkg/vpn/vpn.go:1334-1386 | write then read gives the record back if and only if none of its seven fields holds a separator and its two ends are as trimming leaves them |
| `VpnState.RecordText` | pkg/vpn/vpn.go:1334-1349 | the file holds name, interface, type, gateway, original interface, endpoint and DNS in this order, with a bar between two |
| `VpnState.DecodeKeepsFields` | pkg/vpn/vpn.go:1334-1386 | for separator-free fields before it, the read record is the written one up to trimming of the name and the first separator in the last field |
| `VpnState.ShorterRecordLoads` | pkg/vpn/vpn.go:1352-1386 | an older, shorter record loads as its fields in order with the rest empty |
| `VpnLifecycle.VpnManager.Connect` | pkg/vpn/vpn.go:120-215 | the step-by-step connect equals `AfterConnect` on the whole host, the manager's memory and the result |
| `VpnLifecycle.VpnManager.Disconnect` | pkg/vpn/vpn.go:218-269 | the step-by-step disconnect equals `AfterDisconnect` |
| `VpnLifecycle.VpnManager.ConnectWireGuard` | pkg/vpn/vpn.go:1094-1215 | the WireGuard bring-up, with clean-up paths whose deletion may fail, equals `AfterWireGuard` |
| `VpnLifecycle.VpnManager.DisconnectTracked` | pkg/vpn/vpn.go:272-318 | stops the recorded tunnel by type; what changes and when it fails, the probe for the link included |
| `VpnLifecycle.VpnManager.RemoveEndpointRoute` | pkg/vpn/vpn.go:379-389 | the endpoint route in memory, or else the recorded one, is deleted |
| `VpnLifecycle.VpnManager.RestoreDefaultRoute` | pkg/vpn/vpn.go:415-454 | the guess: the first route with a gateway on a physical interface becomes the only default |
| `VpnLifecycle.VpnManager.RestoreDefaultRouteFromState` | pkg/vpn/vpn.go:392-411 | the recorded default is put back, or the guess is made when that is impossible |
| `VpnLifecycle.VpnManager.ApplyVPNDNS` | pkg/vpn/vpn.go:1222-1238 | the servers of before are remembered exactly when they could be read and the VPN's were applied |
| `VpnLifecycle.VpnManager.FlipDefault` | pkg/vpn/vpn.go:1169-1206 | endpoint route over the old gateway, then the default through the tunnel, as `Flipped` says; `GatewayProtectsEndpoint` says what that means |
| `Routes.ReplacedIsTheOnlyDefault` | pkg/netlink/route_linux.go:72-87 | after `ReplaceDefault` there is exactly one default, the new one, and all other routes are as before |
| `Routes.SetOnIsTheOnlyDefaultThere` | pkg/netlink/route_linux.go:93-112 | after `SetDefaultForIface` its interface has exactly one default; every other route, and every other interface's defaults, are as before |
| `Routes.SettingsDecideEachInterface` | pkg/netlink/route_linux.go:93-112 | after any sequence of per-interface settings each interface's defaults are its last setting, or what they were |
| `Routes.SmallestLastMetricIsPreferred` | cmd/net/app.go:878-901 | after any sequence of settings with distinct last metrics the preferred interface is the one with the smallest |
| `Routes.PreferredDefaultIface` | cmd/net/app.go:878-901 | the loop returns the interface of the first default of least metric, or none when there is none |
| `Routes.FirstLeastIsPreferred` | cmd/net/app.go:878-901 | of several defaults of least metric the first in the table decides |
| `Routes.MetricAppliedIsLocal` | pkg/network/network.go:1008-1030 | applying a metric changes no default of another interface and no other route, and its own default keeps its gateway |
| `Routes.DefaultNames` | pkg/netlink/route_linux.go:340-346 | which destinations make a route a default |
| `Routes.DeleteStep` | pkg/netlink/route_linux.go:155-172 | deleting the listed defaults one by one, each by first match, removes exactly the matching routes in the end |
| `Routes.RouteTable.DeleteDefaultRoutes` | pkg/netlink/route_linux.go:155-172 | the delete loop removes all defaults, or all of one interface, and nothing else |
| `Routes.RouteTable.ReplaceDefault` | pkg/netlink/route_linux.go:72-87 | new table, or an unchanged one when the route cannot be built |
| `Routes.RouteTable.SetDefaultForIface` | pkg/netlink/route_linux.go:93-112 | new table, or an unchanged one when the route cannot be built |
| `Routes.RouteTable.ApplyDefaultRouteMetric` | pkg/network/network.go:1008-1030 | equals `MetricApplied` |
| `Dns.LockedIsOwnedAlways` | pkg/network/network.go:114-216 | in every interleaving of DNS operations, VPN unlocks, renewals and outside writers an immutable resolv.conf is marked as owned |
| `Dns.OwnedFileSurvives` | pkg/dhcpclient/dhcpclient.go:362-370 | while the marker exists no number of renewals through net's hooks changes the file, nor outside writes while it is immutable, even after VPN unlocks |
| `Dns.WhoMayWrite` | pkg/network/network.go:114-216 | a VPN unlock, lease or outside write changes the text only while the file is not immutable, and on a marked file only an outside write does |
| `Dns.LockedHasServerAlways` | pkg/network/network.go:935-947 | without the unconditional lock an immutable resolv.conf always names a server |
| `Dns.CustomServersStay` | pkg/network/network.go:114-159 | after a successful `SetDNS` the servers read back are exactly the valid ones in order, across any later renewals, VPN unlocks and outside writers of the locked file |
| `Dns.SetDNSReads` | pkg/network/network.go:114-159 | exactly when `SetDNS` succeeds, what `GetDNS` then returns, and what a failure leaves of file, bit and marker |
| `Dns.ConnectTakesTheLease` | pkg/network/network.go:782-798 | connecting with DHCP DNS ends with the lease's servers and the marker, however the file was owned or locked before |
| `Dns.CustomStartMeans` | pkg/network/network.go:782-798 | with servers of its own it leaves the file alone until the link is up |
| `Dns.RenewTakesTheLease` | pkg/network/network.go:476-485 | a lease after `DHCPRenew` becomes the text, whatever bit and marker were, and the file ends unlocked and unmarked |
| `Dns.ClearMeans` | pkg/network/network.go:182-200 | clearing an owned file with a working write leaves the comment, no server, no bit and no marker; a refused write keeps the text and a torn one what it got to, both with the marker and without the bit; a file that is not owned is unchanged |
| `Dns.LockMeans` | pkg/network/network.go:204-223 | locking, unlocking, a VPN's unlock and the unlock before a renewal leave the text alone; bit and marker after each |
| `Dns.DhcpMeans` | pkg/network/network.go:114-124 | no servers, or `dhcp` alone, hand the file over: unlocked and unmarked with its text kept |
| `Dns.StartMeans` | pkg/network/network.go:782-798 | a connect with DHCP DNS first leaves a comment that names no server, or the old text when it cannot write, unlocked and unmarked |
| `Dns.DhcpEndMeans` | pkg/network/network.go:935-947 | once its link is up, it locks and marks a file that names a server and can be read, and leaves any other as it is |
| `Dns.CustomEndMeans` | pkg/network/network.go:915-934 | a connect with servers of its own ends with exactly the valid ones, locked and marked |
| `Dns.ServerLine` | pkg/network/network.go:127-137 | one server is written as `nameserver`, a blank and itself, and read back from that line |
| `Dns.CommentedServer` | pkg/network/network.go:243-261 | a line that is commented out names no server |
| `Dns.LeaseLines` | pkg/dhcpclient/dhcpclient.go:362-370 | the script's text for a lease with one server |
| `Dns.RenderReads` | pkg/network/network.go:127-137 | the text written for a server list reads back as that list |
| `Dns.LeaseTextReads` | pkg/dhcpclient/dhcpclient.go:362-370 | the text net's udhcpc script writes reads back as the lease's servers |
| `Dns.HasNameserverAgreesWithGetDNS` | pkg/network/network.go:227-261 | `resolvConfHasNameserver` is true if and only if `GetDNS` returns something |
| `Dns.Resolver.SetDNS` | pkg/network/network.go:114-159 | the method equals `AfterSetDNS`, for every outcome of its write |
| `Dns.Resolver.ClearDNS` | pkg/network/network.go:182-200 | the method equals `AfterClear`: clears and unlocks an owned file, keeps the marker when the write fails, and leaves any other file alone; when it returns true the text is the comment, unlocked and unmarked |
| `Dns.Resolver.LockDNS` | pkg/network/network.go:204-209 | marks, and locks when the file exists |
| `Dns.Resolver.UnlockDNS` | pkg/network/network.go:213-223 | unlocks and unmarks |
| `Dns.Resolver.GetDNS` | pkg/network/network.go:243-261 | the loop returns the trimmed servers of the nameserver lines in order, and an error exactly for an existing file that cannot be read |
| `Dns.Resolver.PrepareConnect` | pkg/network/network.go:782-798 | hands DNS to the DHCP client exactly when no custom servers are set |
| `Dns.Resolver.FinishConnect` | pkg/network/network.go:915-947 | custom servers are set, a lease's servers are locked, a placeholder is not |
| `Dns.Resolver.UdhcpcRenew` | pkg/dhcpclient/dhcpclient.go:362-370 | a renewal writes only while the marker is absent |
| `WgParse.Parse` | pkg/wgconfig/parse.go:77-153 | the one pass equals the section-wise reading: success exactly when all sections and keys are legal, the same device and the same peers in order; `AcceptedPeer` and `AcceptedDevice` say what the values are |
| `WgParse.ParseSettings` | pkg/wgconfig/parse.go:42-74 | the second pass equals its section-wise reading of MTU and DNS |
| `WgParse.AcceptedHasSettings` | pkg/wgconfig/parse.go:42-74 | what the device parser accepts, `ParseSettings` accepts; the MTU is 0 or the last one given, in 68..65535 |
| `WgParse.AcceptedSettings` | pkg/wgconfig/parse.go:42-74 | the settings are accepted exactly when every MTU of an [Interface] section is an integer in 68..65535; the last one stands, and the servers are all entries of all DNS lines in order |
| `WgParse.AcceptedDevice` | pkg/wgconfig/parse.go:159-190 | the device of an accepted text: for private key, port and mark the last value given, read as what it says, `off` as 0 |
| `WgParse.AcceptedPeer` | pkg/wgconfig/parse.go:236-276 | the k-th peer of an accepted text is the k-th [Peer] section: its public key, the last of each optional value, and the networks of all its AllowedIPs in order |
| `WgParse.EntriesMean` | pkg/wgconfig/parse.go:302-328 | what each AllowedIPs entry gives: a bare IPv4 address itself with 32 bits, any other bare address itself with 128, one with a slash what CIDR parsing gives, a blank one nothing |
| `WgParse.EntriesAccepted` | pkg/wgconfig/parse.go:302-328 | a list is accepted exactly when every entry means something |
| `WgParse.InterfaceKeys` | pkg/wgconfig/parse.go:159-190 | the legal keys of an [Interface] section and what is asked of each value: a port in 0..65535, a mark that is `off` or a 32-bit number, an MTU in 68..65535 |
| `WgParse.PeerKeys` | pkg/wgconfig/parse.go:236-276 | the same for a [Peer] section: a keepalive is an integer not below 0 |
| `WgParse.NumbersMean` | pkg/wgconfig/parse.go:208-222 | port, keepalive and MTU are accepted exactly as integers in their range, and with that value |
| `WgParse.FwMarkMeans` | pkg/wgconfig/parse.go:196-206 | `off` in any case is 0, and anything else what number parsing gives |
| `WgParse.LastMeans` | pkg/wgconfig/parse.go:159-190 | of several lines of one key the last is the one that counts |
| `WgParse.HeaderLine` | pkg/wgconfig/parse.go:104-125 | a line in brackets is a header, by its lowercased trimmed name |
| `WgParse.PairLine` | pkg/wgconfig/parse.go:126-131 | a line is cut at its first `=` into a lowercased key and a value |
| `WgParse.CommentLine` | pkg/wgconfig/parse.go:98-102 | blank lines and lines after `#` or `;` say nothing |
| `WgParse.JunkLine` | pkg/wgconfig/parse.go:126-129 | any other line is refused |
| `Strings.AtoiMeans` | pkg/wgconfig/parse.go:211-220 | a text is an integer exactly when it is a numeral with at most one sign that fits 64 bits, and then the numeral's value |
| `WgParse.AppendedPeerSection` | pkg/wgconfig/parse.go:77-153 | appending a legal [Peer] section to an accepted text appends exactly that peer |
| `WgParse.AcceptedTextsConcatenate` | pkg/wgconfig/parse.go:77-153 | two texts, the second with no pair before its first header, are accepted together if and only if each is, and peers concatenate |
| `WgParse.OnePeerPerHeader` | pkg/wgconfig/parse.go:77-153 | an accepted text yields as many peers as it has [Peer] headers |
| `WgParse.BrokenStays` | pkg/wgconfig/parse.go:86-151 | once a prefix is illegal no continuation is accepted, so returning at once loses nothing |
| `WgParse.DeviceConfig.ApplyInterfaceKey` | pkg/wgconfig/parse.go:159-190 | one interface key moves the device from what the pairs so far say to what they say with this one, or fails exactly on an illegal pair |
| `WgParse.PeerConfig.ApplyPeerKey` | pkg/wgconfig/parse.go:236-276 | the same for a peer key; AllowedIPs accumulate |
| `WgParse.CollectAllowedIPs` | pkg/wgconfig/parse.go:302-328 | the loop collects the prefixes in order and fails on the first bad one |
| `EditDistance.LevenshteinDistance` | pkg/config/config.go:113-147 | the matrix filled in place holds the distance of the lowercased texts, byte by byte, for every lowercasing |
| `EditDistance.FillRow` | pkg/config/config.go:132-145 | one row of the matrix, from the row above |
| `EditDistance.ShortestScript` | pkg/config/config.go:113-147 | the distance is the length of a shortest edit script: one exists, none is shorter |
| `EditDistance.DistIsMetric` | pkg/config/config.go:113-147 | zero exactly for equal texts, symmetric, triangle inequality, between length difference and longer length |
| `EditDistance.FindSimilarField` | pkg/config/config.go:150-168 | for every iteration order the least field by distance, length, alphabet among those closer than 3, or none |
| `EditDistance.SuggestionIsUnique` | pkg/config/config.go:150-168 | that specification has one answer, so iteration order cannot matter |
| `EditDistance.SuggestionMeans` | pkg/config/config.go:150-168 | a name at most two edits away is suggested if there is one, and then none is nearer, none as near is shorter, and none as near and as long comes before it in the alphabet |
| `Aliases.FreshCacheReachesFiveHops` | pkg/config/config.go:643-749 | from a cache of networks only, a lookup succeeds exactly when a network is at most five hops away |
| `Aliases.AnswerSpec` | pkg/config/config.go:643-705 | with any truthful cache a lookup succeeds exactly when a cached name or a network is at most five hops away, and answers with the end of the chain |
| `Aliases.ResolveSpec` | pkg/config/config.go:708-749 | the same for `resolveAlias` and any depth; it ends on every alias graph |
| `Aliases.LookupsStayTruthful` | pkg/config/config.go:643-705 | after any sequence of lookups every cached name holds the network its chain ends at |
| `Aliases.AnswersNeverChange` | pkg/config/config.go:643-705 | a found name is found again with the same network whatever was looked up in between |
| `Aliases.FoundOnlyLater` | pkg/config/config.go:643-749 | a concrete chain of six aliases whose first name is found only after the second was looked up |
| `Aliases.ExpandMeans` | pkg/config/config.go:648-655 | only a name with `$(hostname)` in it needs the host name, and fails when it is unknown |
| `Aliases.ReplacedFirst` | pkg/config/config.go:648-655 | the first `$(hostname)` becomes the host name, and the rest behind it is treated alike |
| `Aliases.ReplacedNone` | pkg/config/config.go:648-655 | a text without one stays |
| `Aliases.CyclicNamesNeverResolve` | pkg/config/config.go:708-749 | a name whose chain runs into a cycle is never found, whatever was looked up before |
| `Aliases.ConfigManager.GetNetworkConfig` | pkg/config/config.go:643-705 | the result and the whole new cache, error paths included |
| `DaemonProfiles.ValidateDaemonVPNProfiles` | pkg/config/config.go:308-375 | no error exactly when every daemon type with two or more entries has non-blank, pairwise distinct trimmed profiles; every reported error is true |
| `DaemonProfiles.DistinctMeans` | pkg/config/config.go:308-375 | the rule in other words: any two NetBird entries, and any two Tailscale entries, name trimmed profiles that are not blank and differ |
| `DaemonProfiles.SortedAscends` | pkg/config/config.go:330-353 | the names in an error are in alphabetical order |
| `DaemonProfiles.CheckShared` | pkg/config/config.go:354-372 | reports a pair exactly when two names select one profile, and only true pairs |
| `DaemonProfiles.GroupByType` | pkg/config/config.go:308-330 | in any map order, the entries of each type once and the trimmed profiles they name |
| `DaemonProfiles.ListVPNs` | pkg/vpn/vpn.go:471-652 | in any map order, one status per configured VPN, each decided by counts over the whole configuration; without any, one per running WireGuard interface and one for OpenVPN if it runs |
| `DaemonProfiles.NamedStatus` | pkg/vpn/vpn.go:543-612 | with a VPN named by the state file an entry is connected if and only if it is that one and its own type's probe is up, a WireGuard one by the recorded, configured or default interface; none is ambiguous |
| `DaemonProfiles.ProfileStatus` | pkg/vpn/vpn.go:543-612 | without one, and with NetBird's profile known, a NetBird entry with a profile is connected if and only if the two are equal |
| `DaemonProfiles.UnnamedStatus` | pkg/vpn/vpn.go:543-612 | otherwise a WireGuard entry, or the only one of its type, is connected if and only if its probe is up; one of several of another type never is, and is ambiguous if and only if its probe is up |
| `DaemonProfiles.NamelessRecord` | pkg/vpn/vpn.go:577-584 | a record without a name counts as none, but for an entry without a name |
| `DaemonProfiles.ShownAs` | pkg/vpn/vpn.go:563-622 | name, type and interface that are shown, with each type's default interface |
| `DaemonProfiles.AtMostOneConnected` | pkg/vpn/vpn.go:543-612 | with a validated configuration at most one entry per type other than WireGuard is connected, and none is connected and ambiguous, for every state file and probe outcome |
| `DaemonProfiles.NeverBothIff` | pkg/vpn/vpn.go:543-612 | at most one entry per type other than WireGuard is connected, for every state file and probe outcome, if and only if the NetBird entries that name a profile name different ones |
| `DaemonProfiles.ValidatedIsApart` | pkg/config/config.go:308-375 | a validated configuration meets that condition |
| `DaemonProfiles.SharedProfileConfuses` | pkg/config/config.go:308-375 | without the validator two NetBird entries of one profile can both be reported connected |
| `Firewall.EnableThenDisable` | pkg/firewall/firewall.go:45-82 | enabling and disabling restores the rule list, order included, if and only if of every rule: its deletion fails exactly if it was there before |
| `Firewall.EnabledSame` | pkg/firewall/firewall.go:62-69 | enabling changes nothing if and only if all rules were there |
| `Firewall.DisableTwice` | pkg/firewall/firewall.go:74-82 | an earlier round of deletions makes no difference in the end if and only if every rule it deleted is deleted by the later round too and was there at most once |
| `Firewall.NatRulesShare` | pkg/firewall/firewall.go:45-57 | on a packet the sharing rules translate exactly what leaves by the outgoing interface, and accept exactly what enters by the internal one and what is established and leaves by it; without an internal interface they accept nothing |
| `Firewall.EnabledShares` | pkg/firewall/firewall.go:62-69 | after enabling, a packet is translated or accepted exactly when the rules of before did or the sharing rules do |
| `Firewall.Manager.EnableNAT` | pkg/firewall/firewall.go:62-69 | each rule appended unless present, up to the first that fails |
| `Firewall.Manager.DisableNAT` | pkg/firewall/firewall.go:74-82 | each rule deleted once if present, going on after those that fail |
| `DhcpServer.StartThenStop` | pkg/dhcp/dhcp.go:68-200 | start and stop in different processes: no files and no dnsmasq left; `ip_forward` and the rules are what they were, each if and only if a condition on the host before the start and on what fails in both commands |
| `DhcpServer.HostRuleDeleted` | pkg/dhcp/dhcp.go:410-421 | a concrete start and stop that delete a rule the host had |
| `DhcpServer.RulesLeftBehind` | pkg/dhcp/dhcp.go:410-432 | a concrete successful stop that leaves the rules and removes the record |
| `DhcpServer.RequiredNATRollsBack` | pkg/dhcp/dhcp.go:68-135 | when Start succeeds; before dnsmasq runs a failure changes nothing of this, and a required but failed sharing setup is rolled back inside Start, rules and forwarding each if and only if a condition |
| `DhcpServer.FailedStartLeavesRule` | pkg/dhcp/dhcp.go:352-387 | a concrete start whose roll-back leaves a rule |
| `DhcpServer.FailedStopCanBeRetried` | pkg/dhcp/dhcp.go:138-200 | a stop that cannot kill dnsmasq keeps the state file; when a retry succeeds, whether dnsmasq runs then, and if and only if which conditions its rules and `ip_forward` are those of a first success |
| `DhcpServer.SecondCopyDeleted` | pkg/dhcp/dhcp.go:166-200 | a concrete retried stop that deletes one copy more than a first success |
| `DhcpServer.NewProcessKnows` | pkg/dhcp/dhcp.go:439-477 | a new process sees interface, uplink, previous forwarding value and verdict up to separator replacement and trimming |
| `DhcpServer.RecordReadsBack` | pkg/dhcp/dhcp.go:439-477 | the state file reads back field by field |
| `DhcpServer.UnsavedRulesStay` | pkg/dhcp/dhcp.go:439-448 | when the state file could not be written a stop from another process leaves what was installed and turns forwarding off, so that it comes back exactly when it was off |
| `DhcpServer.SharingIsOn` | pkg/dhcp/dhcp.go:352-387 | after a start whose sharing works, packets that leave by the uplink are translated and those of the served interface accepted, and forwarding is on |
| `DhcpServer.SharingWorksIff` | pkg/dhcp/dhcp.go:352-387 | sharing works exactly when forwarding can be written, there is an uplink other than the served interface, iptables is there and three rules can be installed |
| `DhcpServer.ServedNames` | pkg/dhcp/dhcp.go:266-292 | no interface is served whose name is empty or has white space or a slash in it |
| `DhcpServer.RecordText` | pkg/dhcp/dhcp.go:439-448 | the state file holds interface, uplink, previous forwarding value and reason, with a bar between two |
| `DhcpServer.KilledByNumber` | pkg/dhcp/dhcp.go:515-541 | what each pid file leads to: none is fine, one without a positive number goes with an error, one that cannot be read or killed stays with an error, and a kill removes it |
| `DhcpServer.StoppedForgets` | pkg/dhcp/dhcp.go:138-200 | after a successful stop a manager knows no interface, uplink or verdict, like a new one |
| `DhcpServer.StartedFiles` | pkg/dhcp/dhcp.go:68-135 | which files a start that worked leaves; an old record stays when the new one cannot be written |
| `DhcpServer.FieldsLoad` | pkg/dhcp/dhcp.go:454-477 | what a manager knows after loading a record: which of each field and its own value wins |
| `DhcpServer.DhcpManager.Start` | pkg/dhcp/dhcp.go:68-135 | the method equals `AfterStart` |
| `DhcpServer.DhcpManager.Stop` | pkg/dhcp/dhcp.go:138-160 | the method equals `AfterStop` |
| `DhcpServer.DhcpManager.NATStatus` | pkg/dhcp/dhcp.go:392-395 | the verdict in memory, or the one in the state file |
| `Cleanup.EveryInterleavingIsOrderly` | cmd/net/cleanup.go:33-84 | in every interleaving each registered cleanup is in exactly one of pending, deregistered, taken by one drain; drains run in reverse registration order |
| `Cleanup.EmptyIsOrderly` | cmd/net/cleanup.go:22-29 | so does the empty registry that every process starts with |
| `Cleanup.StepPlaces` | cmd/net/cleanup.go:33-84 | each step moves an id between those places; only registering adds one |
| `Cleanup.TakenAtMostOnce` | cmd/net/cleanup.go:62-84 | nothing is taken twice, nor taken while pending or deregistered |
| `Cleanup.DrainStartsAll` | cmd/net/cleanup.go:62-84 | a drain given its turns starts all it took, each once, whatever happens in between |
| `Cleanup.DrainsOnlyMoveOn` | cmd/net/cleanup.go:62-84 | no later step changes what a drain took or takes a start back |
| `Cleanup.WithoutRemovesOne` | cmd/net/cleanup.go:38-47 | a deregister removes its own entry, or nothing, and keeps the order of the rest |
| `Cleanup.CleanupRegistry.Register` | cmd/net/cleanup.go:33-37 | appends the entry |
| `Cleanup.CleanupRegistry.Deregister` | cmd/net/cleanup.go:38-47 | the splice in the loop equals `Without` |
| `Cleanup.CleanupRegistry.TakeAll` | cmd/net/cleanup.go:62-69 | takes all entries, last first, and leaves none |
| `RunConnect.RegistryLeftAsFound` | cmd/net/app.go:331-341 | on every return path the registry is left as it was found |
| `RunConnect.InterruptBeforeSettled` | cmd/net/app.go:400-457 | an interrupt at any step after this run's unlock is registered and before it settles leaves resolv.conf unlocked and unmarked |
| `RunConnect.InterruptAfterSettled` | cmd/net/app.go:459-473 | an interrupt after the link settled runs none of this run's cleanups |
| `RunConnect.InterruptDuringPreflight` | cmd/net/app.go:325-331 | an interrupt before the run changes a link finds none of its cleanups |
| `RunConnect.UnlockComesFirst` | cmd/net/app.go:408-447 | every act of this run's link phase that locks has the registration of the unlock before it |
| `RunConnect.InterruptNeverStrands` | cmd/net/app.go:400-457 | hence an interrupt at any step after this run locked anything and before it settles leaves resolv.conf unlocked and unmarked |
| `RunConnect.PlainEndsLocked` | cmd/net/app.go:385-418 | a plain-SSID connect that joined ends with resolv.conf marked, and locked with the text it had then if there is one, whatever leases and outside writers do afterwards |
| `RunConnect.PlainTakesTheLease` | cmd/net/app.go:385-418 | its lease is what stays, whoever had written the file before |
| `RunConnect.ConfiguredEndsLocked` | cmd/net/app.go:419-473 | a configured connect that got its link ends with its own valid servers, locked and marked |
| `RunConnect.ConfiguredTakesTheLease` | cmd/net/app.go:419-473 | or, without any, with its lease, locked and marked, when that names a server |
| `RunConnect.App.Connect` | cmd/net/app.go:322-491 | the command performs exactly the modelled steps on registry, undo list and resolv.conf |
| `RunConnect.App.Settle` | cmd/net/app.go:332-337 | the loop over undo deregisters exactly this run's entries |
| `WifiScan.ParseScanResults` | pkg/wifi/wifi.go:350-455 | None exactly for a value before the first header; otherwise one entry per SSID, each the strongest BSS (first on ties) with its block's final values, strongest first, for every map order |
| `WifiScan.BlocksPartition` | pkg/wifi/wifi.go:364-384 | the grouping by header loses nothing: written out, the blocks are the dump again, and none holds a header |
| `WifiScan.SecurityDecided` | pkg/wifi/wifi.go:417-436 | only the last of the RSN, WPA and WEP lines counts, and under RSN the last SAE suite line after it |
| `WifiScan.NothingStands` | pkg/wifi/wifi.go:392-416 | without a readable signal or frequency it is 0 |
| `WifiScan.NoEscape` | pkg/wifi/wifi.go:641-655 | a backslash that no x and two hex digits follow stays |
| `WifiScan.FirstLine` | pkg/wifi/wifi.go:355-366 | the dump is read line by line, each trimmed |
| `WifiScan.SectionLine` | pkg/wifi/wifi.go:417-425 | a line that is no BSS, SSID, signal or frequency line opens an RSN, WPA or WEP section by what it contains, in this order |
| `WifiScan.SuitesLine` | pkg/wifi/wifi.go:426-433 | any further line counts as suites when it contains "Authentication suites:", by whether it has SAE and PSK in it |
| `WifiScan.BssLine` | pkg/wifi/wifi.go:367-384 | a header gives the run of lowercase hex digits and colons after "BSS " |
| `WifiScan.SignalLine` | pkg/wifi/wifi.go:392-407 | a signal line gives the number after "signal: " |
| `WifiScan.FreqLine` | pkg/wifi/wifi.go:408-416 | a frequency line gives all after "freq: ", if that is an integer |
| `WifiScan.NameLine` | pkg/wifi/wifi.go:384-391 | an SSID line gives all after "SSID: ", trimmed and unescaped |
| `WifiScan.DecodedName` | pkg/wifi/wifi.go:641-655 | a backslash, x and two hex digits are the character of that code |
| `WifiScan.DecodedPlain` | pkg/wifi/wifi.go:641-655 | a name without a backslash stays |
| `WifiScan.LastStands` | pkg/wifi/wifi.go:384-416 | of several names, readable signals or readable frequencies under a header the last stands |
| `WifiScan.BestExists` | pkg/wifi/wifi.go:372-374 | every SSID of the dump has a strongest BSS, so none is lost |
| `WifiScan.ReductionIsDetermined` | pkg/wifi/wifi.go:439-455 | map order and unstable sorting can change only the order of equally strong entries |
| `WifiScan.NetworksAppend` | pkg/wifi/wifi.go:364-446 | appending a second dump appends its networks |
| `WifiScan.HeaderFirst` | pkg/wifi/wifi.go:364-384 | a dump that starts with a header never crashes the parser |
| `WifiScan.LoneSSID` | pkg/wifi/wifi.go:384-391 | a concrete first line that crashes the parser, whatever follows |
| `WifiScan.NamelessIffNoLine` | pkg/wifi/wifi.go:384-391 | a block is left out exactly when it has no SSID line |
| `WifiScan.NamesAreNotEmpty` | pkg/wifi/wifi.go:384-391 | an SSID line always gives a name |
| `WifiScan.FindSecurityInScan` | pkg/wifi/wifi.go:498-515 | the security of the strongest BSS of that SSID, and empty exactly when the command failed or no BSS has it |
| `WifiScan.EscapedReadsBack` | pkg/wifi/wifi.go:459-468 | a quoted escaped value reads back as the value and ends at its own closing quote, whatever follows |
| `WifiScan.EscapeIsInjective` | pkg/wifi/wifi.go:459-468 | different values have different escaped forms |
| `WifiScan.EscapeStep` | pkg/wifi/wifi.go:459-468 | the four replacements in their order treat each character on its own |

## Left out

- Process execution, signals, timeouts and sleeps, wpa_supplicant, hostapd, dnsmasq, the tailscale and netbird command lines: each call is a success or a failure in `Env`.
- Netlink, iptables, ioctl and wgctrl internals: an abstract route list to which new routes are appended, a rule list, and file flags. Route edits, the immutable ioctl, the marker's writes and removing the state file succeed once their arguments are valid; the kernel's refusal of two routes with one destination and metric is not modelled.
- Deleting a link drops its routes; nothing outside edits routes between two commands of net; an OpenVPN process that stops takes its tunnel device with it.
- `VpnRuns.RunsTrackTheOriginal`: assumes names without the separator, a tunnel that is not the original default's interface, a default route before the first connect, and that the record of a gateway-mode tunnel gets written; the last is exactly the condition of `ConnectTracksIff`.
- `VpnDns.ChainRestoresServers`: assumes that no command of the chain loses the servers, that is, restores them without being able to write, or replaces them without being able to read or to record them; `ServersAfterDisconnect` and `UnrecordedServersStay` say what is left then.
- `VpnRoutes.RunsLeakNoRoutes`: assumes that no route that comes with a tunnel, and none of before, goes to an endpoint address of the run, and that gateway-mode records get written.
- In WireGuard texts, section names, keys and `off` are lowercased as ASCII letters only.
- `VpnRuns.ConnectThenDisconnect`: assumes no route to the endpoint's address before; the metric of the original default and any further defaults are not restored, because `ReplaceDefault` clears them.
- `DaemonProfiles.AtMostOneConnected`: assumes that a VPN type that is not text in the file does not decode to the name of a daemon; the validator looks only at text.
- `DhcpServer.StartThenStop`: assumes interface names without the separator and a state file that was written; `UnsavedRulesStay` covers the other case.
- `Firewall.NatRulesShare`: a packet is its two interfaces and whether its connection is established, and rules that were there before count as accepting alone; order and rejecting rules are not modelled.
- VPN state without a type is disconnected through a guess; only its step is modelled, and nothing is proved over runs that start from it. Crashes between bringing a tunnel up and writing its record are not modelled.
- `VpnManager` always has a network manager, as in the program; its state file is written whole or not at all.
- The DNS and MTU settings of a WireGuard VPN enter `VpnConfig` as the result of `WgParse.ParseSettings`; the endpoint's resolved address enters through `Env`.
- Key, IP, CIDR, endpoint and float parsing are function parameters; a valid IP text is assumed non-empty without white space, commas or `|`, and `dhcp` is none.
- Error texts and line numbers of errors: only which error, and whether there is one.
- The DHCP server's interface addresses, link state and lease file; only files, process, `ip_forward` and firewall rules are tracked.
- viper's key lowercasing and YAML decoding: the configuration is a map of already decoded entries. VPN inheritance in `MergeWithCommon` is not modelled.
- Interrupt cleanups racing with a connect that is still running, and the drain's overall deadline: in `RunConnect` an interrupt is one drain at one step followed by exit. `Cleanup` does interleave drains with everything else.
- The plain-SSID branch locks `resolv.conf` whether or not it names a server, so `Dns.LockedHasServerAlways` excludes `LockDNS` itself.
- `expandMACTemplate`, random host names and MAC addresses, `pkg/hotspot` (the DHCP server's life cycle again), `pkg/portal`, JSON output, text rendering and command wiring: they would add only easy members.
