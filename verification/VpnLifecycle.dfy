/** Connecting and disconnecting VPNs (pkg/vpn) over the shared host state: the
    routing table, the links, resolv.conf and the active-vpn file. Every command
    may run in its own process, so what a later one undoes comes from the file. */
module VpnLifecycle {
  import opened Strings
  import opened Routes
  import opened VpnState
  import opened Dns
  import WgParse

  datatype World = World(routes: seq<Route>, links: set<string>, dns: ResolvConf, state: Option<State>)

  /** What a Manager holds in memory. */
  datatype Mem = Mem(endpointRoute: string, originalDNS: string)

  datatype Lib = Lib(validV4: string -> bool, validIP: string -> bool)

  datatype VpnType = OpenVPN | WireGuard | Tailscale | NetBird | Other(name: string)

  function TypeName(t: VpnType): string {
    match t
    case OpenVPN => "openvpn"
    case WireGuard => "wireguard"
    case Tailscale => "tailscale"
    case NetBird => "netbird"
    case Other(name) => name
  }

  function TypeOf(name: string): VpnType {
    if name == "openvpn" then OpenVPN
    else if name == "wireguard" then WireGuard
    else if name == "tailscale" then Tailscale
    else if name == "netbird" then NetBird
    else Other(name)
  }

  lemma KnownTypes(t: VpnType)
    requires !t.Other?
    ensures TypeOf(TypeName(t)) == t && TypeName(t) != "" && '|' !in TypeName(t)
  {
  }

  /** A VPN's configuration; settings is what ParseSettings makes of its text
      and device is the tunnel device an OpenVPN text names. */
  datatype VpnConfig = VpnConfig(
    typ: VpnType,
    iface: string,
    device: string,
    gateway: bool,
    address: string,
    acceptDNS: bool,
    settings: Option<WgParse.Settings>)

  /** How the foreign parts of one command turn out: first those of taking down
      the VPN of before, then those of bringing one up. */
  datatype Env = Env(
    stopOk: bool,
    probeOk: bool,
    undoWrite: Write,
    legacyLinks: seq<string>,
    wgAvailable: bool,
    addOk: bool,
    clearOk: bool,
    configureOk: bool,
    addrOk: bool,
    mtuOk: bool,
    upOk: bool,
    cleanupOk: bool,
    tunnelRoutes: seq<Route>,
    endpointIP: string,
    dnsReadable: bool,
    dnsWrite: Write,
    daemonOk: bool,
    unlocked: bool,
    writeOk: bool)

  /** The interface Connect records for a VPN. */
  function TunnelOf(cfg: VpnConfig): string {
    match cfg.typ
    case OpenVPN => cfg.device
    case WireGuard => OrElse(cfg.iface, "wg0")
    case Tailscale => "tailscale0"
    case NetBird => "wt0"
    case Other(_) => ""
  }

  /** The interface a teardown takes down for a recorded VPN. */
  function RecordedTunnel(st: State): string {
    match TypeOf(st.typ)
    case OpenVPN => OrElse(st.iface, "tun0")
    case WireGuard => OrElse(st.iface, "wg0")
    case _ => ""
  }

  // ---- undoing a VPN

  function DropLink(w: World, iface: string): World {
    w.(links := w.links - {iface}, routes := Without(w.routes, OnLink(iface)))
  }

  function DropLinks(w: World, ifaces: seq<string>): World
    decreases |ifaces|
  {
    if ifaces == [] then w else DropLinks(DropLink(w, ifaces[0]), ifaces[1..])
  }

  /** disconnectTracked: a failed stop leaves everything as it is, except that
      a WireGuard link that is already gone counts as stopped, and so does one
      that cannot be probed. */
  function StopTunnel(w: World, st: State, env: Env): (World, bool) {
    match TypeOf(st.typ)
    case OpenVPN => if env.stopOk then (DropLink(w, RecordedTunnel(st)), true) else (w, false)
    case WireGuard =>
      if env.stopOk then (DropLink(w, RecordedTunnel(st)), true)
      else (w, !env.probeOk || RecordedTunnel(st) !in w.links)
    case Tailscale => (w, env.stopOk)
    case NetBird => (w, env.stopOk)
    case Other(_) => (w, true)
  }

  function EndpointToRemove(mem: Mem, st: State): string {
    if st.endpoint != "" then st.endpoint else mem.endpointRoute
  }

  function WithoutEndpoint(lib: Lib, rs: seq<Route>, ip: string): seq<Route> {
    if ip != "" && lib.validV4(ip) then RemoveFirst(rs, To(HostDst(ip))) else rs
  }

  predicate IsVPNInterface(iface: string) {
    || HasPrefix(iface, "wg") || HasPrefix(iface, "tun") || HasPrefix(iface, "tailscale")
    || HasPrefix(iface, "wt") || HasPrefix(iface, "utun")
  }

  predicate Physical(r: Route) {
    r.gw != "" && r.iface != "" && !IsVPNInterface(r.iface)
  }

  /** The first route with a gateway on a physical interface. */
  function FirstPhysical(rs: seq<Route>): (out: Option<Route>)
    ensures out.Some? ==> out.value in rs && Physical(out.value)
  {
    if rs == [] then None
    else if Physical(rs[0]) then Some(rs[0])
    else FirstPhysical(rs[1..])
  }

  /** restoreDefaultRoute's guess. */
  function GuessDefault(lib: Lib, rs: seq<Route>, links: set<string>): seq<Route> {
    match FirstPhysical(rs)
    case None => rs
    case Some(r) => if Buildable(links, lib.validV4, r.iface, r.gw) then Replaced(rs, r.iface, r.gw, 0) else rs
  }

  function RestoredDefault(lib: Lib, rs: seq<Route>, links: set<string>, st: State): seq<Route> {
    if st.origIface != "" && Buildable(links, lib.validV4, st.origIface, st.origGw)
    then Replaced(rs, st.origIface, st.origGw, 0)
    else GuessDefault(lib, rs, links)
  }

  function RestoredDNS(lib: Lib, d: ResolvConf, st: State, write: Write): ResolvConf {
    if st.origDns == "" then d else AfterSetDNS(d, Split(st.origDns, ','), lib.validIP, write).0
  }

  /** Once the tunnel is down: the endpoint route goes, DNS and the default
      route come back, the file is removed. */
  function Undone(lib: Lib, w: World, mem: Mem, st: State, write: Write): World {
    World(
      RestoredDefault(lib, WithoutEndpoint(lib, w.routes, EndpointToRemove(mem, st)), w.links, st),
      w.links,
      RestoredDNS(lib, w.dns, st, write),
      None)
  }

  datatype Outcome = Outcome(world: World, mem: Mem, ok: bool)

  function AfterDisconnect(lib: Lib, w: World, mem: Mem, name: string, env: Env): Outcome {
    match w.state
    case None => Outcome(w, mem, false)
    case Some(st) =>
      if name != "" && st.name != "" && st.name != name then Outcome(w, mem, false)
      else if st.typ == "" then
        Outcome(Undone(lib, DropLinks(w, env.legacyLinks), mem, st, env.undoWrite), mem.(endpointRoute := ""), true)
      else
        var (stopped, ok) := StopTunnel(w, st, env);
        if !ok then Outcome(stopped, mem, false)
        else Outcome(Undone(lib, stopped, mem, st, env.undoWrite), mem.(endpointRoute := ""), true)
  }

  // ---- bringing one up

  /** AddWireGuard, and when that fails deleting whatever is in the way and adding again. */
  function AddTunnel(w: World, iface: string, env: Env): (World, bool) {
    if iface !in w.links && env.addOk then (w.(links := w.links + {iface}), true)
    else
      var cleared := if env.clearOk then DropLink(w, iface) else w;
      if iface !in cleared.links && env.addOk then (cleared.(links := cleared.links + {iface}), true)
      else (cleared, false)
  }

  /** The link is configured, addressed, sized and up, or it is gone again. */
  predicate LinkReady(cfg: VpnConfig, env: Env)
    requires cfg.settings.Some?
  {
    && env.configureOk
    && (cfg.address != "" ==> env.addrOk)
    && (cfg.settings.value.mtu > 0 ==> env.mtuOk)
    && env.upOk
  }

  /** The link goes again after a failed step, if deleting it works. */
  function CleanedUp(w: World, iface: string, env: Env): World {
    if env.cleanupOk then DropLink(w, iface) else w
  }

  predicate ProtectsEndpoint(lib: Lib, links: set<string>, gw: string, ifc: string, env: Env) {
    && env.endpointIP != "" && gw != "" && ifc != ""
    && Buildable(links, lib.validV4, ifc, gw) && lib.validV4(env.endpointIP)
  }

  /** Gateway mode: a host route to the endpoint over the old gateway, then the
      default through the tunnel. */
  function Flipped(lib: Lib, rs: seq<Route>, links: set<string>, tunnel: string, gw: string, ifc: string, env: Env)
    : seq<Route>
  {
    var protected :=
      if ProtectsEndpoint(lib, links, gw, ifc, env) then RouteReplaced(rs, ifc, env.endpointIP, gw) else rs;
    if tunnel in links then Replaced(protected, tunnel, "", 0) else protected
  }

  function Snapshot(d: ResolvConf): string {
    Join(NameserversOf(d), ',')
  }

  /** GetDNS succeeds: the file is missing, or can be read. */
  predicate Readable(d: ResolvConf, env: Env) {
    d.content.None? || env.dnsReadable
  }

  /** applyVPNDNS: the nameservers of before are remembered, unless they cannot
      be read or the VPN's cannot be set. */
  function WithVpnDNS(lib: Lib, w: World, mem: Mem, servers: seq<string>, env: Env): Outcome {
    if servers == [] then Outcome(w, mem, true)
    else
      var (dns, applied) := AfterSetDNS(w.dns, servers, lib.validIP, env.dnsWrite);
      var prior := if Readable(w.dns, env) then Snapshot(w.dns) else mem.originalDNS;
      Outcome(w.(dns := dns), mem.(originalDNS := if applied then prior else ""), true)
  }

  function AfterWireGuard(lib: Lib, w: World, mem: Mem, cfg: VpnConfig, gw: string, ifc: string, env: Env): Outcome {
    if !env.wgAvailable || cfg.settings.None? then Outcome(w, mem, false)
    else
      var tunnel := TunnelOf(cfg);
      var (added, ok) := AddTunnel(w, OrElse(cfg.iface, "wg0"), env);
      if !ok then Outcome(added, mem, false)
      else if !LinkReady(cfg, env) then Outcome(CleanedUp(added, OrElse(cfg.iface, "wg0"), env), mem, false)
      else
        var iface := OrElse(cfg.iface, "wg0");
        var up := added.(routes := added.routes + env.tunnelRoutes);
        var routed :=
          if cfg.gateway then up.(routes := Flipped(lib, up.routes, up.links, iface, gw, ifc, env)) else up;
        var mem1 :=
          if cfg.gateway && ProtectsEndpoint(lib, up.links, gw, ifc, env) then mem.(endpointRoute := env.endpointIP)
          else mem;
        WithVpnDNS(lib, routed, mem1, cfg.settings.value.dns, env)
  }

  /** OpenVPN, Tailscale and NetBird do not edit the main table themselves; with
      accept_dns the latter two lift resolv.conf's immutable bit. */
  function AfterDaemon(w: World, mem: Mem, cfg: VpnConfig, env: Env): Outcome {
    match cfg.typ
    case OpenVPN =>
      if env.daemonOk
      then Outcome(w.(links := w.links + {cfg.device}, routes := w.routes + env.tunnelRoutes), mem, true)
      else Outcome(w, mem, false)
    case Other(_) => Outcome(w, mem, false)
    case _ =>
      var lifted := cfg.acceptDNS && (env.unlocked || env.daemonOk);
      Outcome(if lifted then w.(dns := w.dns.(immutable := false)) else w, mem, env.daemonOk)
  }

  function Gateway(rs: seq<Route>): (string, string) {
    match First(rs, Defaults) case Some(r) => (r.gw, r.iface) case None => ("", "")
  }

  /** The previous VPN, if any, is taken down first; a failure there ends the command. */
  function Previous(lib: Lib, w: World, mem: Mem, env: Env): Outcome {
    if w.state.Some? && w.state.value.typ != "" then
      var (stopped, ok) := StopTunnel(w, w.state.value, env);
      if ok then Outcome(Undone(lib, stopped, mem, w.state.value, env.undoWrite), mem.(endpointRoute := ""), true)
      else Outcome(stopped, mem, false)
    else Outcome(w, mem, true)
  }

  function BringUp(lib: Lib, w: World, cfg: VpnConfig, env: Env): Outcome {
    var (gw, ifc) := Gateway(w.routes);
    if cfg.typ.WireGuard? then AfterWireGuard(lib, w, Mem("", ""), cfg, gw, ifc, env)
    else AfterDaemon(w, Mem("", ""), cfg, env)
  }

  function Record(w: World, mem: Mem, name: string, cfg: VpnConfig, routesBefore: seq<Route>): State {
    var (gw, ifc) := Gateway(routesBefore);
    State(name, TunnelOf(cfg), TypeName(cfg.typ), gw, ifc, mem.endpointRoute, mem.originalDNS)
  }

  /** A VPN that came up gets its record, if the file can be written. */
  function Recorded(up: Outcome, name: string, cfg: VpnConfig, env: Env, routesBefore: seq<Route>): Outcome {
    if !up.ok || !env.writeOk then up
    else up.(world := up.world.(state := Decode(Encode(Record(up.world, up.mem, name, cfg, routesBefore)))))
  }

  /** Connect; cfg is None when the configuration has no such VPN. */
  function AfterConnect(lib: Lib, w: World, mem: Mem, name: string, cfg: Option<VpnConfig>, env: Env): Outcome {
    var prev := Previous(lib, w, mem, env);
    if !prev.ok || cfg.None? then prev.(ok := false)
    else Recorded(BringUp(lib, prev.world, cfg.value, env), name, cfg.value, env, prev.world.routes)
  }

  // ---- the manager

  /** The runtime directory's active-vpn file. */
  class StateDir {
    var activeVPN: Option<string>

    constructor ()
      ensures activeVPN == None
    {
      activeVPN := None;
    }
  }

  class VpnManager {
    const lib: Lib
    const routeMgr: RouteTable
    const netMgr: Resolver
    const dir: StateDir
    var endpointRoute: string
    var originalDNS: string

    /** A fresh process: nothing in memory, everything else shared. */
    constructor (routeMgr: RouteTable, netMgr: Resolver, dir: StateDir)
      ensures this.routeMgr == routeMgr && this.netMgr == netMgr && this.dir == dir
      ensures lib == Lib(routeMgr.validV4, netMgr.validIP)
      ensures Memory() == Mem("", "")
    {
      this.lib := Lib(routeMgr.validV4, netMgr.validIP);
      this.routeMgr, this.netMgr, this.dir := routeMgr, netMgr, dir;
      endpointRoute, originalDNS := "", "";
    }

    function Memory(): Mem
      reads this
    {
      Mem(endpointRoute, originalDNS)
    }

    function Host(): World
      reads this, routeMgr, netMgr, dir
    {
      World(routeMgr.routes, routeMgr.links, netMgr.State(),
            match dir.activeVPN case Some(text) => Decode(text) case None => None)
    }

    ghost predicate Valid()
      reads this, routeMgr, netMgr, dir
    {
      Plausible(netMgr.State()) && lib == Lib(routeMgr.validV4, netMgr.validIP)
    }

    method DisconnectTracked(st: State, env: Env) returns (ok: bool)
      requires Valid()
      modifies routeMgr
      ensures Valid()
      ensures (Host(), ok) == StopTunnel(old(Host()), st, env)
    {
      match TypeOf(st.typ) {
        case OpenVPN =>
          if !env.stopOk {
            return false;
          }
          routeMgr.DeleteLink(OrElse(st.iface, "tun0"));
          return true;
        case WireGuard =>
          var iface := OrElse(st.iface, "wg0");
          if !env.stopOk {
            return !env.probeOk || iface !in routeMgr.links;
          }
          routeMgr.DeleteLink(iface);
          return true;
        case Tailscale =>
          return env.stopOk;
        case NetBird =>
          return env.stopOk;
        case Other(_) =>
          return true;
      }
    }

    method DisconnectLegacy(ifaces: seq<string>)
      requires Valid()
      modifies routeMgr
      ensures Valid()
      ensures Host() == DropLinks(old(Host()), ifaces)
    {
      for i := 0 to |ifaces|
        invariant Valid()
        invariant DropLinks(old(Host()), ifaces) == DropLinks(Host(), ifaces[i..])
      {
        assert ifaces[i..][0] == ifaces[i] && ifaces[i..][1..] == ifaces[i + 1..];
        routeMgr.DeleteLink(ifaces[i]);
      }
    }

    method RemoveEndpointRoute(st: State)
      requires Valid()
      modifies this, routeMgr
      ensures Valid()
      ensures var ip := EndpointToRemove(old(Memory()), st);
              Host() == old(Host()).(routes := WithoutEndpoint(lib, old(Host()).routes, ip))
      ensures Memory() == old(Memory()).(endpointRoute := "")
    {
      var ip := endpointRoute;
      if st.endpoint != "" {
        ip := st.endpoint;
      }
      endpointRoute := "";
      if ip != "" {
        var _ := routeMgr.DelRoute(ip);
      }
    }

    method RestoreDNS(st: State, write: Write)
      requires Valid()
      modifies netMgr
      ensures Valid()
      ensures Host() == old(Host()).(dns := RestoredDNS(lib, old(Host()).dns, st, write))
    {
      if st.origDns == "" {
        return;
      }
      var _ := netMgr.SetDNS(Split(st.origDns, ','), write);
    }

    method RestoreDefaultRoute()
      requires Valid()
      modifies routeMgr`routes
      ensures Valid()
      ensures Host() == old(Host()).(routes := GuessDefault(lib, old(Host()).routes, old(Host()).links))
    {
      var routes := routeMgr.routes;
      var i := 0;
      while i < |routes| && !Physical(routes[i])
        invariant i <= |routes|
        invariant FirstPhysical(routes) == FirstPhysical(routes[i..])
      {
        i := i + 1;
      }
      if i == |routes| {
        return;
      }
      var _ := routeMgr.ReplaceDefault(routes[i].iface, routes[i].gw, 0);
    }

    method RestoreDefaultRouteFromState(st: State)
      requires Valid()
      modifies routeMgr`routes
      ensures Valid()
      ensures Host() == old(Host()).(routes := RestoredDefault(lib, old(Host()).routes, old(Host()).links, st))
    {
      if st.origIface != "" {
        var ok := routeMgr.ReplaceDefault(st.origIface, st.origGw, 0);
        if !ok {
          RestoreDefaultRoute();
        }
        return;
      }
      RestoreDefaultRoute();
    }

    /** The steps Connect and Disconnect share once the tunnel is down. */
    method Undo(st: State, write: Write)
      requires Valid()
      modifies this, routeMgr, netMgr, dir
      ensures Valid()
      ensures Host() == Undone(lib, old(Host()), old(Memory()), st, write)
      ensures Memory() == old(Memory()).(endpointRoute := "")
    {
      RemoveEndpointRoute(st);
      RestoreDNS(st, write);
      RestoreDefaultRouteFromState(st);
      dir.activeVPN := None;
    }

    method GetActiveVPNState() returns (st: Option<State>)
      requires Valid()
      ensures st == Host().state
    {
      if dir.activeVPN.None? {
        return None;
      }
      st := Decode(dir.activeVPN.value);
    }

    method Disconnect(name: string, env: Env) returns (ok: bool)
      requires Valid()
      modifies this, routeMgr, netMgr, dir
      ensures Valid()
      ensures Outcome(Host(), Memory(), ok) == AfterDisconnect(lib, old(Host()), old(Memory()), name, env)
    {
      var active := GetActiveVPNState();
      if active.Some? && name != "" && active.value.name != "" && active.value.name != name {
        return false;
      }
      if active.None? {
        return false;
      }
      var st := active.value;
      if st.typ != "" {
        ok := DisconnectTracked(st, env);
        if !ok {
          return false;
        }
      } else {
        DisconnectLegacy(env.legacyLinks);
      }
      Undo(st, env.undoWrite);
      return true;
    }

    method TakeSnapshot(env: Env)
      requires Valid()
      modifies this`originalDNS
      ensures Valid()
      ensures originalDNS == if Readable(netMgr.State(), env) then Snapshot(netMgr.State()) else old(originalDNS)
    {
      var prior := netMgr.GetDNS(env.dnsReadable);
      if prior.Some? {
        originalDNS := Join(prior.value, ',');
      }
    }

    method ApplyVPNDNS(servers: seq<string>, env: Env)
      requires Valid()
      modifies netMgr, this`originalDNS
      ensures Valid()
      ensures Outcome(Host(), Memory(), true) == WithVpnDNS(lib, old(Host()), old(Memory()), servers, env)
    {
      if |servers| == 0 {
        return;
      }
      ghost var before, host := netMgr.State(), Host();
      TakeSnapshot(env);
      var ok := netMgr.SetDNS(servers, env.dnsWrite);
      assert (netMgr.State(), ok) == AfterSetDNS(before, servers, lib.validIP, env.dnsWrite);
      assert Host() == host.(dns := netMgr.State());
      if !ok {
        originalDNS := "";
      }
    }

    /** Creating the link, clearing a leftover one out of the way. */
    method AddLink(iface: string, env: Env) returns (ok: bool)
      requires Valid()
      modifies routeMgr
      ensures Valid()
      ensures (Host(), ok) == AddTunnel(old(Host()), iface, env)
    {
      if iface !in routeMgr.links && env.addOk {
        routeMgr.links := routeMgr.links + {iface};
        return true;
      }
      if env.clearOk {
        routeMgr.DeleteLink(iface);
      }
      if iface !in routeMgr.links && env.addOk {
        routeMgr.links := routeMgr.links + {iface};
        return true;
      }
      return false;
    }

    method ConfigureLink(iface: string, cfg: VpnConfig, env: Env) returns (ok: bool)
      requires Valid() && cfg.settings.Some?
      modifies routeMgr
      ensures Valid()
      ensures ok == LinkReady(cfg, env)
      ensures Host() == if ok then old(Host()) else CleanedUp(old(Host()), iface, env)
    {
      if !env.configureOk {
        CleanUp(iface, env);
        return false;
      }
      if cfg.address != "" {
        if !env.addrOk {
          CleanUp(iface, env);
          return false;
        }
      }
      if cfg.settings.value.mtu > 0 {
        if !env.mtuOk {
          CleanUp(iface, env);
          return false;
        }
      }
      if !env.upOk {
        CleanUp(iface, env);
        return false;
      }
      return true;
    }

    /** A deletion whose error nobody looks at. */
    method CleanUp(iface: string, env: Env)
      requires Valid()
      modifies routeMgr
      ensures Valid()
      ensures Host() == CleanedUp(old(Host()), iface, env)
    {
      if env.cleanupOk {
        routeMgr.DeleteLink(iface);
      }
    }

    method FlipDefault(iface: string, gw: string, ifc: string, env: Env)
      requires Valid()
      modifies routeMgr`routes, this`endpointRoute
      ensures Valid()
      ensures Host() == old(Host()).(routes := Flipped(lib, old(Host()).routes, old(Host()).links, iface, gw, ifc, env))
      ensures endpointRoute == if ProtectsEndpoint(lib, old(Host()).links, gw, ifc, env) then env.endpointIP
                               else old(endpointRoute)
    {
      if env.endpointIP != "" && gw != "" && ifc != "" {
        var ok := routeMgr.ReplaceRoute(ifc, env.endpointIP, gw);
        if ok {
          endpointRoute := env.endpointIP;
        }
      }
      var _ := routeMgr.ReplaceDefault(iface, "", 0);
    }

    method ConnectWireGuard(cfg: VpnConfig, gw: string, ifc: string, env: Env) returns (ok: bool)
      requires Valid() && cfg.typ.WireGuard?
      modifies this, routeMgr, netMgr
      ensures Valid()
      ensures Outcome(Host(), Memory(), ok)
           == AfterWireGuard(lib, old(Host()), old(Memory()), cfg, gw, ifc, env)
    {
      var iface := OrElse(cfg.iface, "wg0");
      if !env.wgAvailable {
        return false;
      }
      if cfg.settings.None? {
        return false;
      }
      ok := AddLink(iface, env);
      if !ok {
        return false;
      }
      ok := ConfigureLink(iface, cfg, env);
      if !ok {
        return false;
      }
      routeMgr.routes := routeMgr.routes + env.tunnelRoutes;
      if cfg.gateway {
        FlipDefault(iface, gw, ifc, env);
      }
      ApplyVPNDNS(cfg.settings.value.dns, env);
      return true;
    }

    method ConnectDaemon(cfg: VpnConfig, env: Env) returns (ok: bool)
      requires Valid() && !cfg.typ.WireGuard?
      modifies routeMgr, netMgr
      ensures Valid()
      ensures Outcome(Host(), Memory(), ok) == AfterDaemon(old(Host()), old(Memory()), cfg, env)
    {
      if cfg.typ.OpenVPN? {
        if env.daemonOk {
          routeMgr.links := routeMgr.links + {cfg.device};
          routeMgr.routes := routeMgr.routes + env.tunnelRoutes;
        }
        return env.daemonOk;
      }
      if cfg.typ.Other? {
        return false;
      }
      if cfg.acceptDNS && (env.unlocked || env.daemonOk) {
        netMgr.UnlockForVPN();
      }
      return env.daemonOk;
    }

    /** Takes down the VPN the state file names, if any. */
    method DisconnectPrevious(env: Env) returns (ok: bool)
      requires Valid()
      modifies this, routeMgr, netMgr, dir
      ensures Valid()
      ensures Outcome(Host(), Memory(), ok) == Previous(lib, old(Host()), old(Memory()), env)
    {
      var existing := GetActiveVPNState();
      if existing.Some? && existing.value.typ != "" {
        ok := DisconnectTracked(existing.value, env);
        if !ok {
          return false;
        }
        Undo(existing.value, env.undoWrite);
      }
      return true;
    }

    method SetActiveVPNState(record: State)
      requires Valid()
      modifies dir
      ensures Valid()
      ensures Host() == old(Host()).(state := Decode(Encode(record)))
    {
      dir.activeVPN := Some(Encode(record));
    }

    method ConnectType(cfg: VpnConfig, gw: string, ifc: string, env: Env) returns (ok: bool)
      requires Valid() && (gw, ifc) == Gateway(Host().routes)
      modifies this, routeMgr, netMgr
      ensures Valid()
      ensures Outcome(Host(), Memory(), ok) == BringUp(lib, old(Host()), cfg, env)
    {
      endpointRoute := "";
      originalDNS := "";
      if cfg.typ.WireGuard? {
        ok := ConnectWireGuard(cfg, gw, ifc, env);
      } else {
        ok := ConnectDaemon(cfg, env);
      }
    }

    method Connect(name: string, config: Option<VpnConfig>, env: Env) returns (ok: bool)
      requires Valid()
      modifies this, routeMgr, netMgr, dir
      ensures Valid()
      ensures Outcome(Host(), Memory(), ok) == AfterConnect(lib, old(Host()), old(Memory()), name, config, env)
    {
      ok := DisconnectPrevious(env);
      if !ok {
        return false;
      }
      if config.None? {
        return false;
      }
      var cfg := config.value;
      var route := routeMgr.GetDefaultRoute();
      var gw, ifc := "", "";
      if route.Some? {
        gw, ifc := route.value.gw, route.value.iface;
      }
      ok := ConnectType(cfg, gw, ifc, env);
      if !ok {
        return false;
      }
      if env.writeOk {
        SetActiveVPNState(State(name, TunnelOf(cfg), TypeName(cfg.typ), gw, ifc, endpointRoute, originalDNS));
      }
      return true;
    }
  }
}
