/** What holds over whole runs of VPN commands, each possibly in its own process. */
module VpnRuns {
  import opened Strings
  import opened Routes
  import opened VpnState
  import opened Dns
  import opened VpnLifecycle
  import WgParse

  /** One command line; newProcess marks one that remembers nothing. */
  datatype Command =
    | Up(name: string, cfg: Option<VpnConfig>, env: Env, newProcess: bool)
    | Down(name: string, env: Env, newProcess: bool)

  function Execute(lib: Lib, w: World, mem: Mem, c: Command): Outcome {
    var m := if c.newProcess then Mem("", "") else mem;
    match c
    case Up(name, cfg, env, _) => AfterConnect(lib, w, m, name, cfg, env)
    case Down(name, env, _) => AfterDisconnect(lib, w, m, name, env)
  }

  function RunAll(lib: Lib, w: World, mem: Mem, cs: seq<Command>): Outcome
    decreases |cs|
  {
    if cs == [] then Outcome(w, mem, true)
    else
      var o := Execute(lib, w, mem, cs[0]);
      RunAll(lib, o.world, o.mem, cs[1..])
  }

  /** The original default route: known to the kernel and writable to the file. */
  ghost predicate Original(lib: Lib, gw: string, ifc: string) {
    ifc != "" && (gw == "" || lib.validV4(gw)) && '|' !in gw && '|' !in ifc
  }

  /** Names and addresses hold no "|", and the tunnel is not the interface the
      original default leaves by; what the kernel adds for the tunnel are
      non-default routes over the tunnel. */
  ghost predicate SaneConfig(cfg: VpnConfig, ifc: string) {
    && '|' !in TunnelOf(cfg) && TunnelOf(cfg) != ifc
    && (cfg.typ.OpenVPN? ==> OrElse(cfg.device, "tun0") != ifc)
  }

  ghost predicate SaneEnv(cfg: VpnConfig, env: Env) {
    && '|' !in env.endpointIP
    && forall r :: r in env.tunnelRoutes ==> r.iface == TunnelOf(cfg) && !IsDefault(r)
  }

  ghost predicate Sane(c: Command, ifc: string) {
    c.Up? ==> '|' !in c.name && (c.cfg.Some? ==> SaneConfig(c.cfg.value, ifc) && SaneEnv(c.cfg.value, c.env))
  }

  /** While a VPN is recorded, the record names the original default; while none
      is, the table's first default is the original one. */
  ghost predicate Tracks(lib: Lib, w: World, gw: string, ifc: string) {
    && Original(lib, gw, ifc) && ifc in w.links
    && match w.state
       case Some(st) => st.typ != "" && st.origGw == gw && st.origIface == ifc && RecordedTunnel(st) != ifc
       case None => DefaultIs(w.routes, gw, ifc)
  }

  predicate DefaultIs(rs: seq<Route>, gw: string, ifc: string) {
    First(rs, Defaults).Some? && First(rs, Defaults).value.gw == gw && First(rs, Defaults).value.iface == ifc
  }

  /** Undoing a recorded VPN leaves exactly one default, the recorded one. */
  lemma UndoneHasOriginalDefault(lib: Lib, w: World, mem: Mem, st: State, write: Write)
    requires st.origIface != "" && Buildable(w.links, lib.validV4, st.origIface, st.origGw)
    ensures var u := Undone(lib, w, mem, st, write);
            && Only(u.routes, Defaults) == [DefaultVia(st.origIface, st.origGw, 0)]
            && DefaultIs(u.routes, st.origGw, st.origIface)
            && u.links == w.links && u.state == None
            && Without(u.routes, Defaults)
               == Without(WithoutEndpoint(lib, w.routes, EndpointToRemove(mem, st)), Defaults)
  {
    ReplacedIsTheOnlyDefault(
      WithoutEndpoint(lib, w.routes, EndpointToRemove(mem, st)), st.origIface, st.origGw, 0);
  }

  lemma DropKeepsDefault(rs: seq<Route>, iface: string, gw: string, ifc: string)
    requires DefaultIs(rs, gw, ifc) && iface != ifc
    ensures DefaultIs(Without(rs, OnLink(iface)), gw, ifc)
  {
    FirstWithout(rs, Defaults, OnLink(iface));
  }

  lemma PreviousTracks(lib: Lib, w: World, mem: Mem, env: Env, gw: string, ifc: string)
    requires Tracks(lib, w, gw, ifc)
    ensures var p := Previous(lib, w, mem, env);
            Tracks(lib, p.world, gw, ifc) && (if p.ok then p.world.state == None else p.world == w)
  {
    if w.state.Some? {
      var st := w.state.value;
      var (stopped, ok) := StopTunnel(w, st, env);
      if ok {
        UndoneHasOriginalDefault(lib, stopped, mem, st, env.undoWrite);
      }
    }
  }

  lemma AddTunnelTracks(lib: Lib, w: World, iface: string, env: Env, gw: string, ifc: string)
    requires ifc in w.links && DefaultIs(w.routes, gw, ifc) && iface != ifc
    ensures var (a, ok) := AddTunnel(w, iface, env);
            && ifc in a.links && DefaultIs(a.routes, gw, ifc)
            && a.state == w.state && a.dns == w.dns
            && (ok ==> iface in a.links && a.links <= w.links + {iface})
            && (!ok ==> a.links <= w.links)
  {
    DropKeepsDefault(w.routes, iface, gw, ifc);
  }

  /** Gateway-mode WireGuard is the one kind of connection that moves the default. */
  predicate MovesDefault(cfg: VpnConfig) {
    cfg.typ.WireGuard? && cfg.gateway
  }

  lemma AppendKeepsDefault(rs: seq<Route>, more: seq<Route>, gw: string, ifc: string)
    requires DefaultIs(rs, gw, ifc)
    ensures DefaultIs(rs + more, gw, ifc)
  {
    FirstAppend(rs, more, Defaults);
  }

  lemma BringUpTracks(lib: Lib, w: World, cfg: VpnConfig, env: Env, gw: string, ifc: string)
    requires Tracks(lib, w, gw, ifc) && w.state == None
    requires SaneConfig(cfg, ifc) && SaneEnv(cfg, env)
    ensures var b := BringUp(lib, w, cfg, env);
            && ifc in b.world.links && b.world.state == None
            && '|' !in b.mem.endpointRoute
            && (b.ok ==> !cfg.typ.Other?)
            && (!b.ok || !MovesDefault(cfg) ==> DefaultIs(b.world.routes, gw, ifc))
            && (b.ok && MovesDefault(cfg) ==> DefaultIs(b.world.routes, "", TunnelOf(cfg)))
  {
    if cfg.typ.WireGuard? {
      WireGuardTracks(lib, w, cfg, env, gw, ifc);
    } else {
      AppendKeepsDefault(w.routes, env.tunnelRoutes, gw, ifc);
    }
  }

  /** A WireGuard connect that did not come up, or did: its routes, links and endpoint route. */
  lemma WireGuardShape(lib: Lib, w: World, cfg: VpnConfig, env: Env, gw: string, ifc: string)
    requires cfg.typ.WireGuard?
    ensures var b := AfterWireGuard(lib, w, Mem("", ""), cfg, gw, ifc, env);
            var iface := TunnelOf(cfg);
            var (added, ok) := AddTunnel(w, iface, env);
            var routes := added.routes + env.tunnelRoutes;
            && b.world.state == w.state
            && (b.ok ==> ok && b.world.links == added.links
                         && b.world.routes
                            == (if cfg.gateway then Flipped(lib, routes, added.links, iface, gw, ifc, env) else routes)
                         && b.mem.endpointRoute == (if cfg.gateway && ProtectsEndpoint(lib, added.links, gw, ifc, env)
                                                    then env.endpointIP else ""))
            && (!b.ok ==> b.mem.endpointRoute == ""
                          && (b.world == w || b.world == added || b.world == DropLink(added, iface)))
  {
  }

  lemma WireGuardTracks(lib: Lib, w: World, cfg: VpnConfig, env: Env, gw: string, ifc: string)
    requires ifc in w.links && DefaultIs(w.routes, gw, ifc) && w.state == None && cfg.typ.WireGuard?
    requires SaneConfig(cfg, ifc) && SaneEnv(cfg, env)
    ensures var b := AfterWireGuard(lib, w, Mem("", ""), cfg, gw, ifc, env);
            && ifc in b.world.links && b.world.state == None
            && '|' !in b.mem.endpointRoute
            && (!b.ok || !cfg.gateway ==> DefaultIs(b.world.routes, gw, ifc))
            && (b.ok && cfg.gateway ==> DefaultIs(b.world.routes, "", TunnelOf(cfg)))
  {
    var iface := TunnelOf(cfg);
    WireGuardShape(lib, w, cfg, env, gw, ifc);
    AddTunnelTracks(lib, w, iface, env, gw, ifc);
    var added := AddTunnel(w, iface, env).0;
    DropKeepsDefault(added.routes, iface, gw, ifc);
    AppendKeepsDefault(added.routes, env.tunnelRoutes, gw, ifc);
    if AfterWireGuard(lib, w, Mem("", ""), cfg, gw, ifc, env).ok {
      FlippedDefault(lib, added.routes + env.tunnelRoutes, added.links, iface, gw, ifc, env);
    }
  }

  lemma FlippedDefault(lib: Lib, rs: seq<Route>, links: set<string>, tunnel: string, gw: string, ifc: string, env: Env)
    requires tunnel in links
    ensures DefaultIs(Flipped(lib, rs, links, tunnel, gw, ifc, env), "", tunnel)
    ensures Only(Flipped(lib, rs, links, tunnel, gw, ifc, env), Defaults) == [DefaultVia(tunnel, "", 0)]
  {
    var protected :=
      if ProtectsEndpoint(lib, links, gw, ifc, env) then RouteReplaced(rs, ifc, env.endpointIP, gw) else rs;
    ReplacedIsTheOnlyDefault(protected, tunnel, "", 0);
  }

  /** What is read back of the record a connect writes. */
  lemma RecordReadsBack(name: string, cfg: VpnConfig, endpoint: string, dns: string, gw: string, ifc: string)
    requires '|' !in name && '|' !in TunnelOf(cfg) && '|' !in endpoint && '|' !in gw && '|' !in ifc && !cfg.typ.Other?
    ensures var st := Decode(Encode(State(name, TunnelOf(cfg), TypeName(cfg.typ), gw, ifc, endpoint, dns)));
            && st.Some? && st.value.typ == TypeName(cfg.typ) && TypeOf(st.value.typ) == cfg.typ && st.value.typ != ""
            && st.value.iface == TunnelOf(cfg)
            && st.value.origGw == gw && st.value.origIface == ifc && st.value.endpoint == endpoint
            && st.value.name == TrimLeft(name)
            && st.value.origDns == LastField(dns)
  {
    var r := State(name, TunnelOf(cfg), TypeName(cfg.typ), gw, ifc, endpoint, dns);
    KnownTypes(cfg.typ);
    assert PipeFree(Inner(r));
    DecodeKeepsFields(r);
    var d := Decode(Encode(r)).value;
    assert Inner(d)[0] == Inner(r)[0] && Inner(d)[1] == Inner(r)[1] && Inner(d)[2] == Inner(r)[2]
        && Inner(d)[3] == Inner(r)[3] && Inner(d)[4] == Inner(r)[4];
  }

  // ---- when a connect succeeds

  /** The recorded tunnel counts as stopped. */
  predicate Stops(links: set<string>, st: State, env: Env) {
    match TypeOf(st.typ)
    case WireGuard => env.stopOk || !env.probeOk || RecordedTunnel(st) !in links
    case Other(_) => true
    case _ => env.stopOk
  }

  /** The links once the VPN of before is down. */
  function LinksAfterStop(w: World, env: Env): set<string> {
    match w.state
    case None => w.links
    case Some(st) =>
      if env.stopOk && (TypeOf(st.typ).OpenVPN? || TypeOf(st.typ).WireGuard?) then w.links - {RecordedTunnel(st)}
      else w.links
  }

  predicate LinkAdds(links: set<string>, iface: string, env: Env) {
    env.addOk && (iface !in links || env.clearOk)
  }

  /** Getting as far as creating the link. */
  predicate CreatesLink(cfg: VpnConfig, env: Env) {
    cfg.typ.WireGuard? && env.wgAvailable && cfg.settings.Some?
  }

  predicate ComesUp(links: set<string>, cfg: VpnConfig, env: Env) {
    match cfg.typ
    case WireGuard =>
      && CreatesLink(cfg, env) && LinkAdds(links, TunnelOf(cfg), env)
      && env.configureOk && env.upOk
      && (cfg.address != "" ==> env.addrOk) && (cfg.settings.value.mtu > 0 ==> env.mtuOk)
    case Other(_) => false
    case _ => env.daemonOk
  }

  predicate Succeeds(w: World, cfg: Option<VpnConfig>, env: Env) {
    && (w.state.Some? && w.state.value.typ != "" ==> Stops(w.links, w.state.value, env))
    && cfg.Some? && ComesUp(LinksAfterStop(w, env), cfg.value, env)
  }

  lemma PreviousStops(lib: Lib, w: World, mem: Mem, env: Env)
    ensures var p := Previous(lib, w, mem, env);
            && (p.ok <==> (w.state.Some? && w.state.value.typ != "" ==> Stops(w.links, w.state.value, env)))
            && (p.ok ==> p.world.links == LinksAfterStop(w, env))
  {
    if w.state.Some? {
      UntypedIsOther(w.state.value.typ);
    }
  }

  lemma UntypedIsOther(typ: string)
    ensures typ == "" ==> TypeOf(typ).Other?
  {
  }

  lemma ComesUpIff(lib: Lib, w: World, cfg: VpnConfig, env: Env)
    ensures BringUp(lib, w, cfg, env).ok <==> ComesUp(w.links, cfg, env)
  {
  }

  /** Whether a connect succeeds is known from the host and its environment. */
  lemma ConnectSucceedsIff(lib: Lib, w: World, mem: Mem, name: string, cfg: Option<VpnConfig>, env: Env)
    ensures AfterConnect(lib, w, mem, name, cfg, env).ok <==> Succeeds(w, cfg, env)
  {
    PreviousStops(lib, w, mem, env);
    if cfg.Some? {
      ComesUpIff(lib, Previous(lib, w, mem, env).world, cfg.value, env);
      UpIsOk(lib, w, mem, name, cfg.value, env);
    }
  }

  lemma UpIsOk(lib: Lib, w: World, mem: Mem, name: string, cfg: VpnConfig, env: Env)
    ensures var p := Previous(lib, w, mem, env);
            AfterConnect(lib, w, mem, name, Some(cfg), env).ok <==> p.ok && BringUp(lib, p.world, cfg, env).ok
  {
  }

  /** One connect keeps track of the original default exactly when it does not
      succeed, or does not move the default, or gets its record written: the
      code treats a failed write as harmless, and for a gateway-mode tunnel it
      is the one thing that loses the original route. */
  lemma ConnectTracksIff(lib: Lib, w: World, mem: Mem, name: string, cfg: Option<VpnConfig>, env: Env, newProcess: bool,
                         gw: string, ifc: string)
    requires Tracks(lib, w, gw, ifc) && Sane(Up(name, cfg, env, newProcess), ifc)
    ensures Tracks(lib, Execute(lib, w, mem, Up(name, cfg, env, newProcess)).world, gw, ifc)
       <==> !Succeeds(w, cfg, env) || !MovesDefault(cfg.value) || env.writeOk
  {
    var m := if newProcess then Mem("", "") else mem;
    ConnectSucceedsIff(lib, w, m, name, cfg, env);
    PreviousTracks(lib, w, m, env, gw, ifc);
    var p := Previous(lib, w, m, env);
    if p.ok && cfg.Some? {
      BringUpTracks(lib, p.world, cfg.value, env, gw, ifc);
      var b := BringUp(lib, p.world, cfg.value, env);
      if b.ok {
        RecordReadsBack(name, cfg.value, b.mem.endpointRoute, b.mem.originalDNS, gw, ifc);
      }
    }
  }

  lemma DisconnectTracks(lib: Lib, w: World, mem: Mem, name: string, env: Env, gw: string, ifc: string)
    requires Tracks(lib, w, gw, ifc)
    ensures var o := AfterDisconnect(lib, w, mem, name, env);
            Tracks(lib, o.world, gw, ifc) && (if o.ok then o.world.state == None else o.world == w)
  {
    if w.state.Some? {
      var st := w.state.value;
      var (stopped, ok) := StopTunnel(w, st, env);
      if ok {
        UndoneHasOriginalDefault(lib, stopped, mem, st, env.undoWrite);
      }
    }
  }

  /** A gateway-mode tunnel gets its record written. */
  predicate RecordsMove(c: Command) {
    c.Up? && c.cfg.Some? && MovesDefault(c.cfg.value) ==> c.env.writeOk
  }

  /** In every run of connects and disconnects, whatever else fails in them, the
      record names the original default whenever it exists, and whenever it does
      not, the table's first default is the original one. */
  lemma {:induction false} RunsTrackTheOriginal(
      lib: Lib, w: World, mem: Mem, cs: seq<Command>, gw: string, ifc: string)
    requires Tracks(lib, w, gw, ifc)
    requires forall c :: c in cs ==> Sane(c, ifc) && RecordsMove(c)
    ensures Tracks(lib, RunAll(lib, w, mem, cs).world, gw, ifc)
    decreases |cs|
  {
    if cs != [] {
      var c := cs[0];
      assert c in cs;
      var o := Execute(lib, w, mem, c);
      if c.Up? {
        ConnectTracksIff(lib, w, mem, c.name, c.cfg, c.env, c.newProcess, gw, ifc);
      } else {
        DisconnectTracks(lib, w, if c.newProcess then Mem("", "") else mem, c.name, c.env, gw, ifc);
      }
      RunsTrackTheOriginal(lib, o.world, o.mem, cs[1..], gw, ifc);
    }
  }

  lemma HomeTracks(lib: Lib, cfg: VpnConfig)
    requires lib.validV4("10.0.0.1") && cfg.typ.WireGuard? && cfg.iface == "wg0" && cfg.device == "tun0"
    ensures Tracks(lib, HOME, "10.0.0.1", "eth0") && SaneConfig(cfg, "eth0")
  {
    assert First(HOME.routes, Defaults) == Some(DefaultVia("eth0", "10.0.0.1", 0));
    assert TunnelOf(cfg)[0] == 'w' && OrElse(cfg.device, "tun0")[0] == 't';
  }

  /** A lost record, concretely: after a gateway-mode connect whose state file
      could not be written, nothing names the original default any more. */
  lemma LostRecord(lib: Lib, env: Env)
    requires lib.validV4("10.0.0.1")
    requires env.wgAvailable && env.addOk && env.configureOk && env.upOk && !env.writeOk
    requires env.tunnelRoutes == [] && env.endpointIP == ""
    ensures var o := AfterConnect(lib, HOME, Mem("", ""), "work", Some(WG0), env);
            && Tracks(lib, HOME, "10.0.0.1", "eth0") && o.ok && o.world.state == None
            && !DefaultIs(o.world.routes, "10.0.0.1", "eth0")
  {
    HomeTracks(lib, WG0);
    ConnectSucceedsIff(lib, HOME, Mem("", ""), "work", Some(WG0), env);
    ConnectTracksIff(lib, HOME, Mem("", ""), "work", Some(WG0), env, true, "10.0.0.1", "eth0");
  }

  // ---- what a connect leaves behind

  /** A link of the tunnel's name is deleted on the way: a leftover one that is
      in the way, or the new one after a failed step. */
  predicate DeletesLink(links: set<string>, cfg: VpnConfig, env: Env) {
    CreatesLink(cfg, env)
    && (((TunnelOf(cfg) in links || !env.addOk) && env.clearOk)
        || (LinkAdds(links, TunnelOf(cfg), env) && env.cleanupOk))
  }

  /** A daemon that was to manage DNS did not come up after the file was unlocked for it. */
  predicate LiftsInVain(cfg: VpnConfig, env: Env) {
    (cfg.typ.Tailscale? || cfg.typ.NetBird?) && cfg.acceptDNS && env.unlocked
  }

  /** What a connect that fails leaves of the host that it found once the
      previous VPN was down. It never writes DNS text, marker or record. There
      is no link of the tunnel's name exactly when the one it created was
      deleted again, or it created none and a leftover one was deleted; routes go
      exactly when a link of the tunnel's name is deleted that had some; the
      immutable bit goes exactly when a daemon was waited for in vain. */
  lemma FailedConnectLeavesNothing(
      lib: Lib, w: World, mem: Mem, name: string, cfg: Option<VpnConfig>, env: Env)
    requires !AfterConnect(lib, w, mem, name, cfg, env).ok
    ensures var p := Previous(lib, w, mem, env).world;
            var o := AfterConnect(lib, w, mem, name, cfg, env).world;
            && o.state == p.state && o.dns.content == p.dns.content && o.dns.owned == p.dns.owned
            && (if !Previous(lib, w, mem, env).ok then o == w
                else if cfg.None? then o == p
                else
                  var tunnel := TunnelOf(cfg.value);
                  && (o.links <= p.links <==>
                        !CreatesLink(cfg.value, env) || !LinkAdds(p.links, tunnel, env) || env.cleanupOk
                        || tunnel in p.links)
                  && (CreatesLink(cfg.value, env) ==>
                        (tunnel !in o.links <==>
                           if LinkAdds(p.links, tunnel, env) then env.cleanupOk else env.clearOk || tunnel !in p.links))
                  && (o.routes == p.routes <==>
                        !DeletesLink(p.links, cfg.value, env) || forall r :: r in p.routes ==> r.iface != tunnel)
                  && Without(o.routes, OnLink(tunnel)) == Without(p.routes, OnLink(tunnel))
                  && (o.dns == p.dns <==> !LiftsInVain(cfg.value, env) || !p.dns.immutable))
  {
    var prev := Previous(lib, w, mem, env);
    if prev.ok && cfg.Some? {
      if CreatesLink(cfg.value, env) {
        FailedLinkLeaves(lib, prev.world, cfg.value, env);
      }
    }
  }

  lemma FailedLinkLeaves(lib: Lib, p: World, cfg: VpnConfig, env: Env)
    requires CreatesLink(cfg, env) && !BringUp(lib, p, cfg, env).ok
    ensures var o := BringUp(lib, p, cfg, env).world;
            var tunnel := TunnelOf(cfg);
            && o.dns == p.dns && o.state == p.state
            && (o.links <= p.links <==> !LinkAdds(p.links, tunnel, env) || env.cleanupOk || tunnel in p.links)
            && (tunnel !in o.links <==>
                  if LinkAdds(p.links, tunnel, env) then env.cleanupOk else env.clearOk || tunnel !in p.links)
            && o.routes == (if DeletesLink(p.links, cfg, env) then Without(p.routes, OnLink(tunnel)) else p.routes)
            && (o.routes == p.routes <==>
                  !DeletesLink(p.links, cfg, env) || forall r :: r in p.routes ==> r.iface != tunnel)
            && Without(o.routes, OnLink(tunnel)) == Without(p.routes, OnLink(tunnel))
  {
    var tunnel := TunnelOf(cfg);
    WithoutSubsumed(p.routes, OnLink(tunnel), OnLink(tunnel));
    WithoutIsSame(p.routes, tunnel);
  }

  lemma WithoutIsSame(rs: seq<Route>, iface: string)
    ensures Without(rs, OnLink(iface)) == rs <==> forall r :: r in rs ==> r.iface != iface
  {
    if forall r :: r in rs ==> r.iface != iface {
      WithoutNothing(rs, OnLink(iface));
    } else {
      var r :| r in rs && r.iface == iface;
      assert r !in Without(rs, OnLink(iface));
    }
  }

  const HOME := World([DefaultVia("eth0", "10.0.0.1", 0)], {"eth0"}, ResolvConf(None, false, false), None)
  const WG0 := VpnConfig(WireGuard, "wg0", "tun0", true, "", false, Some(WgParse.Settings(0, [])))

  /** Concretely: a failed connect deletes a leftover link together with its route. */
  lemma FailedConnectDropsRoute(lib: Lib, env: Env)
    requires env.wgAvailable && env.addOk && env.clearOk && !env.configureOk
    ensures var left := Route("10.9.0.0/24", "", "wg0", 0);
            var w := HOME.(routes := HOME.routes + [left], links := {"eth0", "wg0"});
            var o := AfterConnect(lib, w, Mem("", ""), "work", Some(WG0), env);
            !o.ok && left in w.routes && left !in o.world.routes
  {
    var left := Route("10.9.0.0/24", "", "wg0", 0);
    var w := HOME.(routes := HOME.routes + [left], links := {"eth0", "wg0"});
    assert w.routes[1] == left;
    ConnectSucceedsIff(lib, w, Mem("", ""), "work", Some(WG0), env);
    FailedLinkLeaves(lib, w, WG0, env);
  }

  /** Concretely: when the clean-up fails too, the link it created stays. */
  lemma FailedConnectLeavesLink(lib: Lib, env: Env)
    requires env.wgAvailable && env.addOk && !env.configureOk && !env.cleanupOk
    ensures var o := AfterConnect(lib, HOME, Mem("", ""), "work", Some(WG0), env);
            !o.ok && o.world.links == {"eth0", "wg0"}
  {
    assert "wg0"[0] != "eth0"[0];
  }

  /** Concretely: a NetBird connect that fails leaves resolv.conf unlocked. */
  lemma FailedConnectLiftsLock(lib: Lib, env: Env, text: string)
    requires env.unlocked && !env.daemonOk
    ensures var w := HOME.(dns := ResolvConf(Some(text), true, true));
            var cfg := WG0.(typ := NetBird, acceptDNS := true);
            var o := AfterConnect(lib, w, Mem("", ""), "work", Some(cfg), env);
            !o.ok && w.dns.immutable && !o.world.dns.immutable
  {
  }

  lemma StopOnce(w: World, st: State, env: Env, tunnel: string)
    requires TypeOf(st.typ) == WireGuard && RecordedTunnel(st) == tunnel && tunnel in w.links
    requires StopTunnel(w, st, env).1
    ensures StopTunnel(w, st, env).0 == if env.stopOk then DropLink(w, tunnel) else w
  {
  }

  /** The table after the tunnel's routes, the endpoint route and the flipped
      default have come and gone: only the routes of other links, less their defaults. */
  lemma FlipUndone(
      lib: Lib, rs: seq<Route>, links: set<string>, tunnel: string, gw: string, ifc: string, env: Env)
    requires tunnel in links && tunnel != ifc
    requires forall r :: r in rs ==> r.dst != HostDst(env.endpointIP)
    ensures var flipped := Flipped(lib, rs, links, tunnel, gw, ifc, env);
            var kept := Without(flipped, OnLink(tunnel));
            var endpoint := if ProtectsEndpoint(lib, links, gw, ifc, env) then env.endpointIP else "";
            && WithoutEndpoint(lib, kept, endpoint) == Without(Without(rs, OnLink(tunnel)), Defaults)
  {
    var protects := ProtectsEndpoint(lib, links, gw, ifc, env);
    var e := Route(HostDst(env.endpointIP), gw, ifc, 0);
    var protected := if protects then RouteReplaced(rs, ifc, env.endpointIP, gw) else rs;
    var base := Without(Without(rs, Defaults), OnLink(tunnel));
    WithoutNothing(rs, To(HostDst(env.endpointIP)));
    WithoutAppend(rs, [e], Defaults);
    WithoutAppend(Without(protected, Defaults), [DefaultVia(tunnel, "", 0)], OnLink(tunnel));
    WithoutAppend(Without(rs, Defaults), [e], OnLink(tunnel));
    WithoutCommutes(rs, Defaults, OnLink(tunnel));
    var kept := Without(Flipped(lib, rs, links, tunnel, gw, ifc, env), OnLink(tunnel));
    assert Without([DefaultVia(tunnel, "", 0)], OnLink(tunnel)) == [];
    if protects {
      assert !IsDefault(e);
      assert Without([e], Defaults) == [e] && Without([e], OnLink(tunnel)) == [e];
      assert kept == base + [e];
      RemoveFirstAfter(base, e, [], To(HostDst(env.endpointIP)));
      assert base + [e] + [] == base + [e];
      assert base + [] == base;
    } else {
      assert kept == base;
    }
  }

  /** The same when the tunnel's link and its routes stay. */
  lemma FlipUndoneInPlace(
      lib: Lib, rs: seq<Route>, links: set<string>, tunnel: string, gw: string, ifc: string, env: Env)
    requires tunnel in links
    requires forall r :: r in rs ==> r.dst != HostDst(env.endpointIP)
    ensures var flipped := Flipped(lib, rs, links, tunnel, gw, ifc, env);
            var endpoint := if ProtectsEndpoint(lib, links, gw, ifc, env) then env.endpointIP else "";
            && Without(WithoutEndpoint(lib, flipped, endpoint), Defaults) == Without(rs, Defaults)
  {
    var e := Route(HostDst(env.endpointIP), gw, ifc, 0);
    var d := DefaultVia(tunnel, "", 0);
    var others := Without(rs, Defaults);
    WithoutNothing(rs, To(HostDst(env.endpointIP)));
    WithoutAppend(rs, [e], Defaults);
    WithoutAppend(others, [d], Defaults);
    WithoutSubsumed(rs, Defaults, Defaults);
    assert Without([d], Defaults) == [] && others + [] == others;
    if ProtectsEndpoint(lib, links, gw, ifc, env) {
      assert !IsDefault(e) && Without([e], Defaults) == [e];
      RemoveFirstAfter(others, e, [d], To(HostDst(env.endpointIP)));
    }
  }

  // ---- the endpoint's own route

  lemma OnlyEndpoint(rs: seq<Route>, tunnel: string, ifc: string, ip: string, gw: string)
    ensures var e := Route(HostDst(ip), gw, ifc, 0);
            Only(Replaced(RouteReplaced(rs, ifc, ip, gw), tunnel, "", 0), To(e.dst)) == [e]
  {
    var e, d := Route(HostDst(ip), gw, ifc, 0), DefaultVia(tunnel, "", 0);
    var to := To(e.dst);
    var kept := Without(rs, to);
    assert !IsDefault(e);
    assert Only(kept, to) == [] by {
      if Only(kept, to) != [] {
        assert Only(kept, to)[0] in Only(kept, to);
      }
    }
    OnlyAppend(kept, [e], to);
    OnlyWithoutDisjoint(kept + [e], to, Defaults);
    OnlyAppend(Without(kept + [e], Defaults), [d], to);
    assert Only([d], to) == [] && Only([e], to) == [e];
  }

  /** A gateway-mode connect keeps the tunnel's own packets out of the tunnel:
      afterwards the one route to the endpoint's address leaves by the interface
      and gateway of the old default, and the record names the address, exactly
      when there is an endpoint address and an old gateway on an existing
      interface, both IPv4. Otherwise no such route is added and none recorded. */
  lemma GatewayProtectsEndpoint(
      lib: Lib, w: World, mem: Mem, name: string, cfg: VpnConfig, env: Env, gw: string, ifc: string)
    requires w.state == None && DefaultIs(w.routes, gw, ifc) && TunnelOf(cfg) != ifc
    requires cfg.typ.WireGuard? && cfg.gateway && env.writeOk && AfterConnect(lib, w, mem, name, Some(cfg), env).ok
    requires '|' !in name && '|' !in TunnelOf(cfg) && '|' !in env.endpointIP && '|' !in gw && '|' !in ifc
    ensures var w1 := AfterConnect(lib, w, mem, name, Some(cfg), env).world;
            var dst := env.endpointIP + "/32";
            var reachable := && env.endpointIP != "" && gw != "" && ifc != "" && ifc in w.links
                             && lib.validV4(gw) && lib.validV4(env.endpointIP);
            && w1.state.Some?
            && Only(w1.routes, Defaults) == [Route("", "", TunnelOf(cfg), 0)]
            && (reachable ==>
                  Only(w1.routes, To(dst)) == [Route(dst, gw, ifc, 0)] && w1.state.value.endpoint == env.endpointIP)
            && (!reachable ==>
                  && w1.state.value.endpoint == ""
                  && forall r :: r in w1.routes && r.dst == dst ==> r in w.routes || r in env.tunnelRoutes)
  {
    var tunnel := TunnelOf(cfg);
    WireGuardShape(lib, w, cfg, env, gw, ifc);
    RecordWritten(lib, w, mem, name, cfg, env);
    var b := BringUp(lib, w, cfg, env);
    RecordReadsBack(name, cfg, b.mem.endpointRoute, b.mem.originalDNS, gw, ifc);
    var added := AddTunnel(w, tunnel, env).0;
    var rs := added.routes + env.tunnelRoutes;
    FlippedDefault(lib, rs, added.links, tunnel, gw, ifc, env);
    FlipProtects(lib, rs, added.links, tunnel, gw, ifc, env);
  }

  lemma FlipProtects(lib: Lib, rs: seq<Route>, links: set<string>, tunnel: string, gw: string, ifc: string, env: Env)
    requires tunnel in links
    ensures var to, rs' := To(HostDst(env.endpointIP)), Flipped(lib, rs, links, tunnel, gw, ifc, env);
            && (ProtectsEndpoint(lib, links, gw, ifc, env) ==>
                  Only(rs', to) == [Route(HostDst(env.endpointIP), gw, ifc, 0)])
            && (!ProtectsEndpoint(lib, links, gw, ifc, env) ==>
                  forall r :: r in rs' && r.dst == HostDst(env.endpointIP) ==> r in rs)
  {
    OnlyEndpoint(rs, tunnel, ifc, env.endpointIP, gw);
    assert !IsDefault(Route(HostDst(env.endpointIP), "", "", 0));
  }

  // ---- names that other programs and older files rely on

  /** The types by their names in configuration and record. */
  lemma TypesByName()
    ensures TypeOf("openvpn") == OpenVPN && TypeOf("wireguard") == WireGuard
    ensures TypeOf("tailscale") == Tailscale && TypeOf("netbird") == NetBird
    ensures forall name :: name != "openvpn" && name != "wireguard" && name != "tailscale" && name != "netbird" ==>
              TypeOf(name) == Other(name)
  {
    KnownTypes(OpenVPN);
    KnownTypes(WireGuard);
    KnownTypes(Tailscale);
    KnownTypes(NetBird);
    assert "openvpn"[0] == 'o' && "wireguard"[0] == 'w' && "tailscale"[0] == 't' && "netbird"[0] == 'n';
  }

  /** What a connect that succeeds records: the VPN's name, its type, its
      interface, and the default route it found. */
  lemma RecordNames(
      lib: Lib, w: World, mem: Mem, name: string, cfg: VpnConfig, env: Env, gw: string, ifc: string)
    requires Tracks(lib, w, gw, ifc) && w.state == None && Sane(Up(name, Some(cfg), env, true), ifc) && env.writeOk
    requires AfterConnect(lib, w, mem, name, Some(cfg), env).ok
    ensures var st := AfterConnect(lib, w, mem, name, Some(cfg), env).world.state;
            && st.Some? && st.value.name == TrimLeft(name) && TypeOf(st.value.typ) == cfg.typ
            && st.value.origGw == gw && st.value.origIface == ifc
            && (cfg.typ == OpenVPN ==> st.value.iface == cfg.device)
            && (cfg.typ == WireGuard ==> st.value.iface == if cfg.iface == "" then "wg0" else cfg.iface)
            && (cfg.typ == Tailscale ==> st.value.iface == "tailscale0")
            && (cfg.typ == NetBird ==> st.value.iface == "wt0")
  {
    BringUpTracks(lib, w, cfg, env, gw, ifc);
    RecordWritten(lib, w, mem, name, cfg, env);
    var b := BringUp(lib, w, cfg, env);
    RecordReadsBack(name, cfg, b.mem.endpointRoute, b.mem.originalDNS, gw, ifc);
  }

  /** The link that stopping a recorded tunnel takes away, and no other; the
      daemons keep theirs. */
  lemma StopDropsTunnel(w: World, st: State, env: Env)
    requires env.stopOk
    ensures var s := StopTunnel(w, st, env);
            var tunnel := if TypeOf(st.typ) == OpenVPN then (if st.iface == "" then "tun0" else st.iface)
                          else if st.iface == "" then "wg0" else st.iface;
            && s.1
            && (TypeOf(st.typ) == OpenVPN || TypeOf(st.typ) == WireGuard ==>
                  && s.0.links == w.links - {tunnel}
                  && (forall r :: r in s.0.routes <==> r in w.routes && r.iface != tunnel))
            && (TypeOf(st.typ) != OpenVPN && TypeOf(st.typ) != WireGuard ==> s.0 == w)
  {
  }

  /** A VPN that edits no routes itself: OpenVPN brings its device and its
      routes, the daemons nothing that the record would have to undo. */
  lemma DaemonComesUp(lib: Lib, w: World, cfg: VpnConfig, env: Env)
    requires !cfg.typ.WireGuard?
    ensures var b := BringUp(lib, w, cfg, env);
            && (b.ok <==> env.daemonOk && !cfg.typ.Other?)
            && (b.ok && cfg.typ == OpenVPN ==>
                  b.world == w.(links := w.links + {cfg.device}, routes := w.routes + env.tunnelRoutes))
            && (!b.ok || cfg.typ != OpenVPN ==>
                  b.world.links == w.links && b.world.routes == w.routes && b.world.dns.content == w.dns.content)
            && (b.world.dns.immutable <==>
                  w.dns.immutable
                  && !((cfg.typ == Tailscale || cfg.typ == NetBird) && cfg.acceptDNS && (env.unlocked || env.daemonOk)))
  {
  }

  /** A disconnect without a restorable record makes the first route with a
      gateway on an interface that is no VPN's the only default, if there is one. */
  lemma GuessIsFirstPhysical(lib: Lib, rs: seq<Route>, links: set<string>, k: nat)
    requires k <= |rs|
    requires forall i :: 0 <= i < k ==> !UpstreamHop(rs[i])
    ensures k == |rs| ==> GuessDefault(lib, rs, links) == rs
    ensures k < |rs| && UpstreamHop(rs[k]) && rs[k].iface in links && lib.validV4(rs[k].gw) ==>
              Only(GuessDefault(lib, rs, links), Defaults) == [Route("", rs[k].gw, rs[k].iface, 0)]
  {
    FirstPhysicalAt(rs, k);
    if k < |rs| && UpstreamHop(rs[k]) {
      ReplacedIsTheOnlyDefault(rs, rs[k].iface, rs[k].gw, 0);
    }
  }

  /** A gateway on an interface whose name is not that of a tunnel. */
  predicate UpstreamHop(r: Route) {
    && r.gw != "" && r.iface != ""
    && !("wg" <= r.iface) && !("tun" <= r.iface) && !("tailscale" <= r.iface) && !("wt" <= r.iface)
    && !("utun" <= r.iface)
  }

  lemma {:induction false} FirstPhysicalAt(rs: seq<Route>, k: nat)
    requires k <= |rs| && forall i :: 0 <= i < k ==> !UpstreamHop(rs[i])
    ensures k == |rs| ==> FirstPhysical(rs) == None
    ensures k < |rs| && UpstreamHop(rs[k]) ==> FirstPhysical(rs) == Some(rs[k])
  {
    if k > 0 {
      assert !UpstreamHop(rs[0]);
      FirstPhysicalAt(rs[1..], k - 1);
    }
  }

  /** A restorable record decides, and any other leaves it to the guess. */
  lemma RestoredOrGuessed(lib: Lib, rs: seq<Route>, links: set<string>, st: State)
    ensures var restorable :=
              st.origIface != "" && st.origIface in links && (st.origGw == "" || lib.validV4(st.origGw));
            var r := RestoredDefault(lib, rs, links, st);
            if restorable then Only(r, Defaults) == [Route("", st.origGw, st.origIface, 0)]
            else r == GuessDefault(lib, rs, links)
  {
    ReplacedIsTheOnlyDefault(rs, st.origIface, st.origGw, 0);
  }

  /** Which VPN a disconnect takes down: the recorded one, unless it is asked for
      another by name; a record without a name answers to any. */
  lemma DisconnectByName(lib: Lib, w: World, mem: Mem, name: string, env: Env)
    ensures var o := AfterDisconnect(lib, w, mem, name, env);
            var other := w.state.Some? && name != "" && w.state.value.name != "" && name != w.state.value.name;
            o == if w.state.None? || other then Outcome(w, mem, false) else AfterDisconnect(lib, w, mem, "", env)
  {
  }

  /** It removes the record and puts the recorded servers back, or leaves DNS
      alone when there are none. */
  lemma DisconnectRestoresDNS(lib: Lib, w: World, mem: Mem, name: string, env: Env)
    requires AfterDisconnect(lib, w, mem, name, env).ok
    ensures var o, st := AfterDisconnect(lib, w, mem, name, env).world, w.state.value;
            && o.state == None
            && o.dns == if st.origDns == "" then w.dns
                        else AfterSetDNS(w.dns, Split(st.origDns, ','), lib.validIP, env.undoWrite).0
  {
    LegacyDropsLinks(w, env.legacyLinks);
  }

  /** A manager that took a VPN down forgets its endpoint, and nothing else. */
  lemma EndpointForgotten(lib: Lib, w: World, mem: Mem, name: string, env: Env)
    ensures var o := AfterDisconnect(lib, w, mem, name, env); o.mem == if o.ok then mem.(endpointRoute := "") else mem
    ensures var o := Previous(lib, w, mem, env);
            o.mem == if o.ok && w.state.Some? && w.state.value.typ != "" then mem.(endpointRoute := "") else mem
  {
  }

  /** A record without a type takes all links it is told of with it. */
  lemma {:induction false} LegacyDropsLinks(w: World, ifaces: seq<string>)
    ensures var o := DropLinks(w, ifaces);
            && o.links == w.links - (set i | i in ifaces)
            && (forall r :: r in o.routes <==> r in w.routes && r.iface !in ifaces)
            && o.dns == w.dns && o.state == w.state
    decreases |ifaces|
  {
    if ifaces != [] {
      LegacyDropsLinks(DropLink(w, ifaces[0]), ifaces[1..]);
      assert ifaces == [ifaces[0]] + ifaces[1..];
    }
  }

  /** The host right after a gateway-mode connect. */
  lemma GatewayConnected(
      lib: Lib, w: World, mem: Mem, name: string, cfg: VpnConfig, env: Env, gw: string, ifc: string)
    requires Tracks(lib, w, gw, ifc) && w.state == None
    requires MovesDefault(cfg) && Sane(Up(name, Some(cfg), env, true), ifc) && env.writeOk
    requires AfterConnect(lib, w, mem, name, Some(cfg), env).ok
    ensures var w1 := AfterConnect(lib, w, mem, name, Some(cfg), env).world;
            var tunnel := TunnelOf(cfg);
            var added := AddTunnel(w, tunnel, env).0;
            && tunnel in w1.links && ifc in w1.links && w1.links == added.links
            && w1.routes == Flipped(lib, added.routes + env.tunnelRoutes, added.links, tunnel, gw, ifc, env)
            && w1.state.Some?
            && w1.state.value.typ == TypeName(WireGuard) && TypeOf(w1.state.value.typ) == WireGuard
            && w1.state.value.typ != ""
            && w1.state.value.iface == tunnel
            && w1.state.value.origGw == gw && w1.state.value.origIface == ifc
            && w1.state.value.endpoint
               == (if ProtectsEndpoint(lib, added.links, gw, ifc, env) then env.endpointIP else "")
  {
    WireGuardTracks(lib, w, cfg, env, gw, ifc);
    WireGuardShape(lib, w, cfg, env, gw, ifc);
    AddTunnelTracks(lib, w, TunnelOf(cfg), env, gw, ifc);
    RecordWritten(lib, w, mem, name, cfg, env);
    var b := BringUp(lib, w, cfg, env);
    RecordReadsBack(name, cfg, b.mem.endpointRoute, b.mem.originalDNS, gw, ifc);
  }

  lemma RecordWritten(lib: Lib, w: World, mem: Mem, name: string, cfg: VpnConfig, env: Env)
    requires w.state == None && env.writeOk && AfterConnect(lib, w, mem, name, Some(cfg), env).ok
    ensures var b := BringUp(lib, w, cfg, env);
            var (gw, ifc) := Gateway(w.routes);
            var r := State(name, TunnelOf(cfg), TypeName(cfg.typ), gw, ifc, b.mem.endpointRoute, b.mem.originalDNS);
            b.ok && AfterConnect(lib, w, mem, name, Some(cfg), env).world == b.world.(state := Decode(Encode(r)))
  {
  }

  /** Undoing such a record in a new process. */
  lemma GatewayDisconnected(lib: Lib, w1: World, st: State, name: string, env: Env, gw: string, ifc: string)
    requires Original(lib, gw, ifc) && ifc in w1.links && w1.state == Some(st)
    requires TypeOf(st.typ) == WireGuard && st.typ != "" && st.iface != "" && st.iface != ifc && st.iface in w1.links
    requires st.origGw == gw && st.origIface == ifc
    requires AfterDisconnect(lib, w1, Mem("", ""), name, env).ok
    ensures var w2 := AfterDisconnect(lib, w1, Mem("", ""), name, env).world;
            var stopped := if env.stopOk then DropLink(w1, st.iface) else w1;
            && Only(w2.routes, Defaults) == [DefaultVia(ifc, gw, 0)]
            && w2.routes == Replaced(WithoutEndpoint(lib, stopped.routes, st.endpoint), ifc, gw, 0)
            && w2.links == stopped.links && (st.iface !in w2.links <==> env.stopOk)
            && w2.state == None
  {
    StopOnce(w1, st, env, st.iface);
    UndoneHasOriginalDefault(lib, StopTunnel(w1, st, env).0, Mem("", ""), st, env.undoWrite);
  }

  /** Concretely: when neither deleting nor probing the link works, a disconnect
      succeeds and forgets a tunnel that is still up. */
  lemma TunnelLeftUp(lib: Lib, env: Env)
    requires lib.validV4("10.0.0.1") && !env.stopOk && !env.probeOk
    ensures var st := State("work", "wg0", TypeName(WireGuard), "10.0.0.1", "eth0", "", "");
            var w1 := HOME.(routes := [DefaultVia("wg0", "", 0)], links := {"eth0", "wg0"}, state := Some(st));
            var o := AfterDisconnect(lib, w1, Mem("", ""), "work", env);
            o.ok && o.world.state == None && "wg0" in o.world.links
  {
    KnownTypes(WireGuard);
  }

  lemma AddedRoutes(w: World, tunnel: string, env: Env)
    requires forall r :: r in env.tunnelRoutes ==> r.iface == tunnel
    ensures var added := AddTunnel(w, tunnel, env).0;
            && Without(added.routes + env.tunnelRoutes, OnLink(tunnel)) == Without(w.routes, OnLink(tunnel))
            && (forall r :: r in added.routes ==> r in w.routes)
            && added.links - {tunnel} == w.links - {tunnel}
  {
    var added := AddTunnel(w, tunnel, env).0;
    WithoutAppend(added.routes, env.tunnelRoutes, OnLink(tunnel));
    AllOnLinkGone(env.tunnelRoutes, tunnel);
    WithoutSubsumed(w.routes, OnLink(tunnel), OnLink(tunnel));
    assert Without(w.routes, OnLink(tunnel)) + [] == Without(w.routes, OnLink(tunnel));
  }

  /** The routes a disconnect leaves besides the default: those of before
      without the tunnel's, or with them when the link could not be deleted. */
  function LeftRoutes(w: World, tunnel: string, env: Env, env2: Env): seq<Route> {
    if env2.stopOk then Without(w.routes, OnLink(tunnel)) else AddTunnel(w, tunnel, env).0.routes + env.tunnelRoutes
  }

  /** A gateway-mode WireGuard connect and a disconnect from another process
      leave one default with the original interface and gateway, no route to
      the endpoint, no record, and every other route as it was. The tunnel is
      gone if and only if its link could be deleted: a disconnect that cannot
      even probe for it succeeds as well. */
  lemma ConnectThenDisconnect(
      lib: Lib, w: World, mem: Mem, name: string, cfg: VpnConfig, env: Env, name2: string, env2: Env,
      gw: string, ifc: string)
    requires Tracks(lib, w, gw, ifc) && w.state == None
    requires MovesDefault(cfg) && Sane(Up(name, Some(cfg), env, true), ifc) && env.writeOk
    requires forall r :: r in w.routes || r in env.tunnelRoutes ==> r.dst != HostDst(env.endpointIP)
    requires AfterConnect(lib, w, mem, name, Some(cfg), env).ok
    requires var w1 := AfterConnect(lib, w, mem, name, Some(cfg), env).world;
             AfterDisconnect(lib, w1, Mem("", ""), name2, env2).ok
    ensures var w1 := AfterConnect(lib, w, mem, name, Some(cfg), env).world;
            var w2 := AfterDisconnect(lib, w1, Mem("", ""), name2, env2).world;
            var tunnel := TunnelOf(cfg);
            && Only(w2.routes, Defaults) == [DefaultVia(ifc, gw, 0)]
            && Without(w2.routes, Defaults) == Without(LeftRoutes(w, tunnel, env, env2), Defaults)
            && (forall r :: r in w2.routes ==> r.dst != HostDst(env.endpointIP))
            && w2.links == (if env2.stopOk then w.links - {tunnel} else w.links + {tunnel})
            && (tunnel !in w2.links <==> env2.stopOk)
            && w2.state == None
  {
    var tunnel := TunnelOf(cfg);
    var kept := GatewayUndone(lib, w, mem, name, cfg, env, name2, env2, gw, ifc);
    FlipLeaves(lib, w, tunnel, gw, ifc, env, env2);
    RestoredRoutes(kept, LeftRoutes(w, tunnel, env, env2), ifc, gw, HostDst(env.endpointIP));
  }

  /** The table of the pair of commands, before its routes are compared. */
  lemma GatewayUndone(
      lib: Lib, w: World, mem: Mem, name: string, cfg: VpnConfig, env: Env, name2: string, env2: Env,
      gw: string, ifc: string)
    returns (kept: seq<Route>)
    requires Tracks(lib, w, gw, ifc) && w.state == None
    requires MovesDefault(cfg) && Sane(Up(name, Some(cfg), env, true), ifc) && env.writeOk
    requires AfterConnect(lib, w, mem, name, Some(cfg), env).ok
    requires var w1 := AfterConnect(lib, w, mem, name, Some(cfg), env).world;
             AfterDisconnect(lib, w1, Mem("", ""), name2, env2).ok
    ensures var w1 := AfterConnect(lib, w, mem, name, Some(cfg), env).world;
            var w2 := AfterDisconnect(lib, w1, Mem("", ""), name2, env2).world;
            var tunnel := TunnelOf(cfg);
            var added := AddTunnel(w, tunnel, env).0;
            var flipped := Flipped(lib, added.routes + env.tunnelRoutes, added.links, tunnel, gw, ifc, env);
            var endpoint := if ProtectsEndpoint(lib, added.links, gw, ifc, env) then env.endpointIP else "";
            && tunnel in added.links
            && kept == WithoutEndpoint(lib, if env2.stopOk then Without(flipped, OnLink(tunnel)) else flipped, endpoint)
            && w2.routes == Replaced(kept, ifc, gw, 0) && Only(w2.routes, Defaults) == [DefaultVia(ifc, gw, 0)]
            && w2.links == (if env2.stopOk then added.links - {tunnel} else added.links)
            && added.links == w.links + {tunnel}
            && (tunnel !in w2.links <==> env2.stopOk) && w2.state == None
  {
    var tunnel := TunnelOf(cfg);
    GatewayConnected(lib, w, mem, name, cfg, env, gw, ifc);
    var w1 := AfterConnect(lib, w, mem, name, Some(cfg), env).world;
    GatewayDisconnected(lib, w1, w1.state.value, name2, env2, gw, ifc);
    kept := WithoutEndpoint(lib, if env2.stopOk then Without(w1.routes, OnLink(tunnel)) else w1.routes,
                            w1.state.value.endpoint);
  }

  lemma FlipLeaves(
      lib: Lib, w: World, tunnel: string, gw: string, ifc: string, env: Env, env2: Env)
    requires tunnel in AddTunnel(w, tunnel, env).0.links && tunnel != ifc
    requires forall r :: r in env.tunnelRoutes ==> r.iface == tunnel
    requires forall r :: r in w.routes || r in env.tunnelRoutes ==> r.dst != HostDst(env.endpointIP)
    ensures var added := AddTunnel(w, tunnel, env).0;
            var flipped := Flipped(lib, added.routes + env.tunnelRoutes, added.links, tunnel, gw, ifc, env);
            var endpoint := if ProtectsEndpoint(lib, added.links, gw, ifc, env) then env.endpointIP else "";
            var left := LeftRoutes(w, tunnel, env, env2);
            var stopped := if env2.stopOk then Without(flipped, OnLink(tunnel)) else flipped;
            && Without(WithoutEndpoint(lib, stopped, endpoint), Defaults) == Without(left, Defaults)
            && (forall r :: r in left ==> r.dst != HostDst(env.endpointIP))
            && added.links - {tunnel} == w.links - {tunnel}
  {
    var added := AddTunnel(w, tunnel, env).0;
    var rs := added.routes + env.tunnelRoutes;
    AddedRoutes(w, tunnel, env);
    if env2.stopOk {
      FlipUndone(lib, rs, added.links, tunnel, gw, ifc, env);
      WithoutSubsumed(Without(w.routes, OnLink(tunnel)), Defaults, Defaults);
    } else {
      FlipUndoneInPlace(lib, rs, added.links, tunnel, gw, ifc, env);
    }
  }

  lemma RestoredRoutes(kept: seq<Route>, left: seq<Route>, ifc: string, gw: string, dst: string)
    requires Without(kept, Defaults) == Without(left, Defaults)
    requires forall r :: r in left ==> r.dst != dst
    requires !IsDefault(Route(dst, "", "", 0))
    ensures Without(Replaced(kept, ifc, gw, 0), Defaults) == Without(left, Defaults)
    ensures forall r :: r in Replaced(kept, ifc, gw, 0) ==> r.dst != dst
  {
    ReplacedIsTheOnlyDefault(kept, ifc, gw, 0);
    var d := DefaultVia(ifc, gw, 0);
    assert IsDefault(d);
    forall r | r in Replaced(kept, ifc, gw, 0)
      ensures r.dst != dst
    {
      assert r in Without(left, Defaults) || r == d;
    }
  }

  lemma {:induction false} AllOnLinkGone(rs: seq<Route>, iface: string)
    requires forall r :: r in rs ==> r.iface == iface
    ensures Without(rs, OnLink(iface)) == []
  {
    if rs != [] {
      assert rs[0] in rs && forall r :: r in rs[1..] ==> r in rs;
      AllOnLinkGone(rs[1..], iface);
    }
  }

  /** When no leftover link carries the tunnel's name, that is literally every other route and link. */
  lemma NothingOnMissingLink(w: World, tunnel: string)
    requires tunnel !in w.links && forall r :: r in w.routes ==> r.iface in w.links
    ensures Without(w.routes, OnLink(tunnel)) == w.routes && w.links - {tunnel} == w.links
  {
    WithoutNothing(w.routes, OnLink(tunnel));
  }

  /** A disconnect that cannot stop the tunnel changes nothing, so that it can
      be retried; so does one that names another VPN, or finds none. */
  lemma FailedDisconnectChangesNothing(lib: Lib, w: World, mem: Mem, name: string, env: Env)
    ensures !AfterDisconnect(lib, w, mem, name, env).ok ==>
              AfterDisconnect(lib, w, mem, name, env).world == w && AfterDisconnect(lib, w, mem, name, env).mem == mem
  {
  }
}
