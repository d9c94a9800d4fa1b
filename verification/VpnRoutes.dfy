/** Routes over whole runs of VPN commands: what connects and disconnects leave
    of the routes of other links, and of the host routes to VPN endpoints. */
module VpnRoutes {
  import opened Strings
  import opened Routes
  import opened VpnState
  import opened VpnLifecycle
  import opened VpnRuns

  function Keep(rs: seq<Route>, p: Route -> bool): (out: seq<Route>)
    ensures forall r :: r in out <==> r in rs && p(r)
  {
    if rs == [] then []
    else if p(rs[0]) then [rs[0]] + Keep(rs[1..], p)
    else Keep(rs[1..], p)
  }

  lemma {:induction false} KeepAppend(a: seq<Route>, b: seq<Route>, p: Route -> bool)
    ensures Keep(a + b, p) == Keep(a, p) + Keep(b, p)
  {
    if a == [] {
      assert a + b == b;
    } else {
      assert (a + b)[1..] == a[1..] + b;
      KeepAppend(a[1..], b, p);
    }
  }

  lemma {:induction false} KeepWithout(rs: seq<Route>, sel: Selector, p: Route -> bool)
    ensures Keep(Without(rs, sel), p) == Without(Keep(rs, p), sel)
  {
    if rs != [] {
      KeepWithout(rs[1..], sel, p);
    }
  }

  /** Removing the first match: nothing happens to what the selector never
      picks, and what it only picks from loses its own first match. */
  lemma {:induction false} KeepRemoveFirst(rs: seq<Route>, sel: Selector, p: Route -> bool)
    ensures (forall r :: Matches(sel, r) ==> !p(r)) ==> Keep(RemoveFirst(rs, sel), p) == Keep(rs, p)
    ensures (forall r :: Matches(sel, r) ==> p(r)) ==> Keep(RemoveFirst(rs, sel), p) == RemoveFirst(Keep(rs, p), sel)
  {
    if rs != [] && !Matches(sel, rs[0]) {
      KeepRemoveFirst(rs[1..], sel, p);
    }
  }

  lemma {:induction false} KeepEquivalent(rs: seq<Route>, p: Route -> bool, q: Route -> bool)
    requires forall r :: r in rs ==> p(r) == q(r)
    ensures Keep(rs, p) == Keep(rs, q)
  {
    if rs != [] {
      assert rs == [rs[0]] + rs[1..];
      KeepEquivalent(rs[1..], p, q);
    }
  }

  lemma KeepNone(rs: seq<Route>, p: Route -> bool)
    requires forall r :: r in rs ==> !p(r)
    ensures Keep(rs, p) == []
  {
    if Keep(rs, p) != [] {
      assert Keep(rs, p)[0] in Keep(rs, p);
    }
  }

  // ---- two views of a table

  /** The links and endpoint addresses that the VPNs of a run use. */
  datatype Scope = Scope(tunnels: set<string>, ips: set<string>)

  predicate ToEndpoint(sc: Scope, r: Route) {
    exists ip :: ip in sc.ips && r.dst == HostDst(ip)
  }

  /** The routes that are none of the VPNs' business. */
  function Foreign(sc: Scope): Route -> bool {
    r => !IsDefault(r) && r.iface !in sc.tunnels && !ToEndpoint(sc, r)
  }

  function Ends(sc: Scope): Route -> bool {
    r => ToEndpoint(sc, r)
  }

  function OtherLinks(sc: Scope): Route -> bool {
    r => !IsDefault(r) && r.iface !in sc.tunnels
  }

  ghost predicate Same(a: seq<Route>, b: seq<Route>, sc: Scope) {
    Keep(a, Foreign(sc)) == Keep(b, Foreign(sc)) && Keep(a, Ends(sc)) == Keep(b, Ends(sc))
  }

  /** Endpoint routes leave by a link that is no tunnel. */
  ghost predicate EndsOutside(rs: seq<Route>, sc: Scope) {
    forall r :: r in rs && ToEndpoint(sc, r) ==> r.iface !in sc.tunnels
  }

  lemma WithoutOther(rs: seq<Route>, sel: Selector, p: Route -> bool)
    requires forall r :: r in rs && p(r) ==> !Matches(sel, r)
    ensures Keep(Without(rs, sel), p) == Keep(rs, p)
  {
    KeepWithout(rs, sel, p);
    WithoutNothing(Keep(rs, p), sel);
  }

  lemma DropSame(rs: seq<Route>, tunnel: string, sc: Scope)
    requires tunnel in sc.tunnels && EndsOutside(rs, sc)
    ensures Same(Without(rs, OnLink(tunnel)), rs, sc) && EndsOutside(Without(rs, OnLink(tunnel)), sc)
  {
    WithoutOther(rs, OnLink(tunnel), Foreign(sc));
    WithoutOther(rs, OnLink(tunnel), Ends(sc));
  }

  lemma AppendSame(rs: seq<Route>, more: seq<Route>, sc: Scope)
    requires forall r :: r in more ==> !Foreign(sc)(r) && !ToEndpoint(sc, r)
    ensures Same(rs + more, rs, sc)
  {
    KeepAppend(rs, more, Foreign(sc));
    KeepAppend(rs, more, Ends(sc));
    KeepNone(more, Foreign(sc));
    KeepNone(more, Ends(sc));
    assert Keep(rs, Foreign(sc)) + [] == Keep(rs, Foreign(sc)) && Keep(rs, Ends(sc)) + [] == Keep(rs, Ends(sc));
  }

  lemma DefaultSame(rs: seq<Route>, iface: string, gw: string, sc: Scope)
    ensures Same(Replaced(rs, iface, gw, 0), rs, sc)
  {
    var d := DefaultVia(iface, gw, 0);
    assert forall r :: ToEndpoint(sc, r) ==> !IsDefault(r);
    WithoutOther(rs, Defaults, Foreign(sc));
    WithoutOther(rs, Defaults, Ends(sc));
    AppendSame(Without(rs, Defaults), [d], sc);
  }

  lemma RestoredSame(lib: Lib, rs: seq<Route>, links: set<string>, st: State, sc: Scope)
    ensures Same(RestoredDefault(lib, rs, links, st), rs, sc)
  {
    DefaultSame(rs, st.origIface, st.origGw, sc);
    if FirstPhysical(rs).Some? {
      DefaultSame(rs, FirstPhysical(rs).value.iface, FirstPhysical(rs).value.gw, sc);
    }
  }

  /** Removing a route to an endpoint removes it from the endpoint routes only. */
  lemma EndpointRemoved(lib: Lib, rs: seq<Route>, ip: string, sc: Scope)
    requires ip == "" || ip in sc.ips
    ensures Keep(WithoutEndpoint(lib, rs, ip), Foreign(sc)) == Keep(rs, Foreign(sc))
    ensures Keep(WithoutEndpoint(lib, rs, ip), Ends(sc))
         == if ip != "" && lib.validV4(ip) then RemoveFirst(Keep(rs, Ends(sc)), To(HostDst(ip))) else Keep(rs, Ends(sc))
  {
    KeepRemoveFirst(rs, To(HostDst(ip)), Foreign(sc));
    KeepRemoveFirst(rs, To(HostDst(ip)), Ends(sc));
  }

  /** Protecting an endpoint adds its route to the endpoint routes only. */
  lemma EndpointAdded(rs: seq<Route>, ifc: string, ip: string, gw: string, sc: Scope)
    requires ip in sc.ips && Keep(rs, Ends(sc)) == []
    ensures Keep(RouteReplaced(rs, ifc, ip, gw), Foreign(sc)) == Keep(rs, Foreign(sc))
    ensures Keep(RouteReplaced(rs, ifc, ip, gw), Ends(sc)) == [Route(HostDst(ip), gw, ifc, 0)]
  {
    var e := Route(HostDst(ip), gw, ifc, 0);
    var kept := Without(rs, To(HostDst(ip)));
    WithoutOther(rs, To(HostDst(ip)), Foreign(sc));
    KeepWithout(rs, To(HostDst(ip)), Ends(sc));
    KeepAppend(kept, [e], Foreign(sc));
    KeepAppend(kept, [e], Ends(sc));
    assert ToEndpoint(sc, e);
    assert Keep([e], Ends(sc)) == [e] && Keep([e], Foreign(sc)) == [];
    assert Keep(kept, Foreign(sc)) + [] == Keep(kept, Foreign(sc));
  }

  // ---- what holds between commands

  /** The one endpoint route that a record stands for. */
  function EndOf(state: Option<State>, gw: string, ifc: string): seq<Route> {
    if state.Some? && state.value.endpoint != "" then [Route(HostDst(state.value.endpoint), gw, ifc, 0)] else []
  }

  /** The routes of other links are those of before, and the endpoint routes are
      exactly the recorded one. */
  ghost predicate Tidy(lib: Lib, w: World, mem: Mem, base: seq<Route>, sc: Scope, gw: string, ifc: string) {
    && Keep(w.routes, Foreign(sc)) == base
    && Keep(w.routes, Ends(sc)) == EndOf(w.state, gw, ifc)
    && (mem.endpointRoute == "" || mem.endpointRoute in sc.ips)
    && (w.state.Some? ==>
          && (w.state.value.endpoint == ""
              || (w.state.value.endpoint in sc.ips && lib.validV4(w.state.value.endpoint)))
          && (TypeOf(w.state.value.typ).OpenVPN? || TypeOf(w.state.value.typ).WireGuard? ==>
                RecordedTunnel(w.state.value) in sc.tunnels))
  }

  /** The command stays within the run's tunnels and endpoints, and no route that
      comes with a tunnel goes to one of these endpoints. */
  ghost predicate Within(c: Command, sc: Scope) {
    c.Up? && c.cfg.Some? ==>
      && TunnelOf(c.cfg.value) in sc.tunnels
      && (c.cfg.value.typ.OpenVPN? ==> OrElse(c.cfg.value.device, "tun0") in sc.tunnels)
      && (c.env.endpointIP == "" || c.env.endpointIP in sc.ips)
      && forall r :: r in c.env.tunnelRoutes ==> !ToEndpoint(sc, r)
  }

  lemma StoppedRoutes(w: World, st: State, env: Env)
    ensures var s := StopTunnel(w, st, env).0;
            s.routes == w.routes
            || ((TypeOf(st.typ).OpenVPN? || TypeOf(st.typ).WireGuard?)
                && s.routes == Without(w.routes, OnLink(RecordedTunnel(st))))
  {
  }

  /** Undoing the recorded VPN leaves no endpoint route. */
  lemma UndoneIsTidy(
      lib: Lib, w: World, mem: Mem, env: Env, base: seq<Route>, sc: Scope, gw: string, ifc: string)
    requires Tidy(lib, w, mem, base, sc, gw, ifc) && ifc !in sc.tunnels && w.state.Some?
    ensures var st := w.state.value;
            var u := Undone(lib, StopTunnel(w, st, env).0, mem, st, env.undoWrite);
            Tidy(lib, u, mem.(endpointRoute := ""), base, sc, gw, ifc)
  {
    var st := w.state.value;
    var stopped := StopTunnel(w, st, env).0;
    StoppedRoutes(w, st, env);
    if stopped.routes != w.routes {
      DropSame(w.routes, RecordedTunnel(st), sc);
    }
    var ip := EndpointToRemove(mem, st);
    EndpointRemoved(lib, stopped.routes, ip, sc);
    RestoredSame(lib, WithoutEndpoint(lib, stopped.routes, ip), stopped.links, st, sc);
  }

  lemma PreviousIsTidy(
      lib: Lib, w: World, mem: Mem, env: Env, base: seq<Route>, sc: Scope, gw: string, ifc: string)
    requires Tidy(lib, w, mem, base, sc, gw, ifc) && ifc !in sc.tunnels
    ensures var p := Previous(lib, w, mem, env);
            Tidy(lib, p.world, p.mem, base, sc, gw, ifc)
  {
    PreviousStops(lib, w, mem, env);
    if w.state.Some? && w.state.value.typ != "" {
      UndoneIsTidy(lib, w, mem, env, base, sc, gw, ifc);
    }
  }

  lemma DisconnectIsTidy(
      lib: Lib, w: World, mem: Mem, name: string, env: Env, base: seq<Route>, sc: Scope, gw: string, ifc: string)
    requires Tidy(lib, w, mem, base, sc, gw, ifc) && ifc !in sc.tunnels
    requires w.state.Some? ==> w.state.value.typ != ""
    ensures var o := AfterDisconnect(lib, w, mem, name, env);
            Tidy(lib, o.world, o.mem, base, sc, gw, ifc)
  {
    if w.state.Some? {
      UndoneIsTidy(lib, w, mem, env, base, sc, gw, ifc);
    }
  }

  lemma AddedSame(w: World, tunnel: string, env: Env, sc: Scope)
    requires tunnel in sc.tunnels && EndsOutside(w.routes, sc)
    ensures var a := AddTunnel(w, tunnel, env).0;
            Same(a.routes, w.routes, sc) && EndsOutside(a.routes, sc)
  {
    DropSame(w.routes, tunnel, sc);
  }

  lemma FlippedTidies(
      lib: Lib, rs: seq<Route>, links: set<string>, tunnel: string, gw: string, ifc: string, env: Env, sc: Scope)
    requires Keep(rs, Ends(sc)) == [] && (env.endpointIP == "" || env.endpointIP in sc.ips)
    ensures var f := Flipped(lib, rs, links, tunnel, gw, ifc, env);
            && Keep(f, Foreign(sc)) == Keep(rs, Foreign(sc))
            && Keep(f, Ends(sc)) == if ProtectsEndpoint(lib, links, gw, ifc, env)
                                    then [Route(HostDst(env.endpointIP), gw, ifc, 0)] else []
  {
    var protected :=
      if ProtectsEndpoint(lib, links, gw, ifc, env) then RouteReplaced(rs, ifc, env.endpointIP, gw) else rs;
    if ProtectsEndpoint(lib, links, gw, ifc, env) {
      EndpointAdded(rs, ifc, env.endpointIP, gw, sc);
    }
    DefaultSame(protected, tunnel, "", sc);
  }

  /** What a bring-up adds: at most the protected endpoint's route, which it remembers. */
  lemma BringUpTidies(
      lib: Lib, p: World, cfg: VpnConfig, env: Env, base: seq<Route>, sc: Scope, gw: string, ifc: string)
    requires Tidy(lib, p, Mem("", ""), base, sc, gw, ifc) && p.state == None && ifc !in sc.tunnels
    requires DefaultIs(p.routes, gw, ifc) && SaneEnv(cfg, env) && Within(Up("", Some(cfg), env, true), sc)
    ensures var b := BringUp(lib, p, cfg, env);
            var e := b.mem.endpointRoute;
            && Keep(b.world.routes, Foreign(sc)) == base
            && Keep(b.world.routes, Ends(sc)) == (if e == "" then [] else [Route(HostDst(e), gw, ifc, 0)])
            && (e == "" || (e in sc.ips && lib.validV4(e) && b.ok && MovesDefault(cfg)))
  {
    if cfg.typ.WireGuard? {
      var tunnel := TunnelOf(cfg);
      WireGuardShape(lib, p, cfg, env, gw, ifc);
      AddedSame(p, tunnel, env, sc);
      var added := AddTunnel(p, tunnel, env).0;
      DropSame(added.routes, tunnel, sc);
      AppendSame(added.routes, env.tunnelRoutes, sc);
      FlippedTidies(lib, added.routes + env.tunnelRoutes, added.links, tunnel, gw, ifc, env, sc);
    } else {
      AppendSame(p.routes, env.tunnelRoutes, sc);
    }
  }

  lemma ConnectIsTidy(
      lib: Lib, w: World, mem: Mem, name: string, cfg: Option<VpnConfig>, env: Env, base: seq<Route>, sc: Scope,
      gw: string, ifc: string)
    requires Tracks(lib, w, gw, ifc) && Tidy(lib, w, mem, base, sc, gw, ifc) && ifc !in sc.tunnels
    requires var c := Up(name, cfg, env, true); Sane(c, ifc) && RecordsMove(c) && Within(c, sc)
    ensures var o := AfterConnect(lib, w, mem, name, cfg, env);
            Tidy(lib, o.world, o.mem, base, sc, gw, ifc)
  {
    PreviousTracks(lib, w, mem, env, gw, ifc);
    PreviousIsTidy(lib, w, mem, env, base, sc, gw, ifc);
    var p := Previous(lib, w, mem, env);
    if p.ok && cfg.Some? {
      RecordedIsTidy(lib, p.world, name, cfg.value, env, base, sc, gw, ifc);
    }
  }

  lemma RecordedIsTidy(
      lib: Lib, p: World, name: string, cfg: VpnConfig, env: Env, base: seq<Route>, sc: Scope, gw: string, ifc: string)
    requires Tracks(lib, p, gw, ifc) && p.state == None && ifc !in sc.tunnels
    requires Tidy(lib, p, Mem("", ""), base, sc, gw, ifc)
    requires var c := Up(name, Some(cfg), env, true); Sane(c, ifc) && RecordsMove(c) && Within(c, sc)
    ensures var o := Recorded(BringUp(lib, p, cfg, env), name, cfg, env, p.routes);
            Tidy(lib, o.world, o.mem, base, sc, gw, ifc)
  {
    BringUpTracks(lib, p, cfg, env, gw, ifc);
    BringUpTidies(lib, p, cfg, env, base, sc, gw, ifc);
    var b := BringUp(lib, p, cfg, env);
    if b.ok && env.writeOk {
      RecordReadsBack(name, cfg, b.mem.endpointRoute, b.mem.originalDNS, gw, ifc);
      SameTunnel(Recorded(b, name, cfg, env, p.routes).world.state.value, cfg);
    }
  }

  lemma SameTunnel(st: State, cfg: VpnConfig)
    requires TypeOf(st.typ) == cfg.typ && st.iface == TunnelOf(cfg)
    ensures cfg.typ.WireGuard? ==> RecordedTunnel(st) == TunnelOf(cfg)
    ensures cfg.typ.OpenVPN? ==> RecordedTunnel(st) == OrElse(cfg.device, "tun0")
  {
  }

  lemma {:induction false} RunsStayTidy(
      lib: Lib, w: World, mem: Mem, cs: seq<Command>, base: seq<Route>, sc: Scope, gw: string, ifc: string)
    requires Tracks(lib, w, gw, ifc) && Tidy(lib, w, mem, base, sc, gw, ifc) && ifc !in sc.tunnels
    requires forall c :: c in cs ==> Sane(c, ifc) && RecordsMove(c) && Within(c, sc)
    ensures var o := RunAll(lib, w, mem, cs);
            Tidy(lib, o.world, o.mem, base, sc, gw, ifc)
    decreases |cs|
  {
    if cs != [] {
      var c := cs[0];
      assert c in cs && forall x :: x in cs[1..] ==> x in cs;
      var m := if c.newProcess then Mem("", "") else mem;
      if c.Up? {
        ConnectIsTidy(lib, w, m, c.name, c.cfg, c.env, base, sc, gw, ifc);
        ConnectTracksIff(lib, w, mem, c.name, c.cfg, c.env, c.newProcess, gw, ifc);
      } else {
        DisconnectIsTidy(lib, w, m, c.name, c.env, base, sc, gw, ifc);
        DisconnectTracks(lib, w, m, c.name, c.env, gw, ifc);
      }
      var o := Execute(lib, w, mem, c);
      RunsStayTidy(lib, o.world, o.mem, cs[1..], base, sc, gw, ifc);
    }
  }

  /** No run leaks routes, whatever fails in it, and whether or not its tunnels
      could be deleted: the non-default routes of all other links stay what they
      were, in order, but for one route to the endpoint that the record names,
      and so without exception once no VPN is recorded. */
  lemma RunsLeakNoRoutes(
      lib: Lib, w: World, mem: Mem, cs: seq<Command>, sc: Scope, gw: string, ifc: string)
    requires Tracks(lib, w, gw, ifc) && w.state == None && mem.endpointRoute == "" && ifc !in sc.tunnels
    requires forall r :: r in w.routes ==> !ToEndpoint(sc, r)
    requires forall c :: c in cs ==> Sane(c, ifc) && RecordsMove(c) && Within(c, sc)
    ensures var o := RunAll(lib, w, mem, cs).world;
            && Keep(o.routes, Foreign(sc)) == Keep(w.routes, OtherLinks(sc))
            && Keep(o.routes, Ends(sc)) == EndOf(o.state, gw, ifc)
            && (o.state == None ==>
                  Keep(o.routes, OtherLinks(sc)) == Keep(w.routes, OtherLinks(sc))
                  && forall r :: r in o.routes ==> !ToEndpoint(sc, r))
  {
    KeepNone(w.routes, Ends(sc));
    KeepEquivalent(w.routes, Foreign(sc), OtherLinks(sc));
    RunsStayTidy(lib, w, mem, cs, Keep(w.routes, OtherLinks(sc)), sc, gw, ifc);
    var o := RunAll(lib, w, mem, cs).world;
    if o.state == None {
      forall r | r in o.routes
        ensures !ToEndpoint(sc, r)
      {
        assert r in Keep(o.routes, Ends(sc)) <==> ToEndpoint(sc, r);
      }
      KeepEquivalent(o.routes, Foreign(sc), OtherLinks(sc));
    }
  }
}
