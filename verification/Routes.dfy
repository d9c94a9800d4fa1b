/** The IPv4 main routing table and the operations of pkg/netlink on it. The
    kernel is an ordered list of routes plus the set of links that exist. */
module Routes {
  import opened Strings

  datatype Route = Route(dst: string, gw: string, iface: string, metric: nat)

  predicate IsDefault(r: Route) {
    r.dst == "" || r.dst == "default" || r.dst == "0.0.0.0/0" || r.dst == "::/0"
  }

  /** The ways a default route is written, and nothing else. */
  lemma DefaultNames(r: Route)
    ensures IsDefault(r) <==> r.dst == "" || r.dst == "default" || r.dst == "0.0.0.0/0" || r.dst == "::/0"
  {
  }

  /** The routes an operation looks at. */
  datatype Selector = Defaults | DefaultsOn(iface: string) | OnLink(iface: string) | To(dst: string)

  predicate Matches(sel: Selector, r: Route) {
    match sel
    case Defaults => IsDefault(r)
    case DefaultsOn(i) => IsDefault(r) && r.iface == i
    case OnLink(i) => r.iface == i
    case To(d) => r.dst == d
  }

  function Only(rs: seq<Route>, sel: Selector): (out: seq<Route>)
    ensures forall r :: r in out <==> r in rs && Matches(sel, r)
  {
    if rs == [] then []
    else if Matches(sel, rs[0]) then [rs[0]] + Only(rs[1..], sel)
    else Only(rs[1..], sel)
  }

  function Without(rs: seq<Route>, sel: Selector): (out: seq<Route>)
    ensures forall r :: r in out <==> r in rs && !Matches(sel, r)
  {
    if rs == [] then []
    else if Matches(sel, rs[0]) then Without(rs[1..], sel)
    else [rs[0]] + Without(rs[1..], sel)
  }

  function First(rs: seq<Route>, sel: Selector): (out: Option<Route>)
    ensures out.None? ==> forall r :: r in rs ==> !Matches(sel, r)
    ensures out.Some? ==> out.value in rs && Matches(sel, out.value)
  {
    if rs == [] then None
    else if Matches(sel, rs[0]) then Some(rs[0])
    else First(rs[1..], sel)
  }

  lemma {:induction false} OnlyAppend(a: seq<Route>, b: seq<Route>, sel: Selector)
    ensures Only(a + b, sel) == Only(a, sel) + Only(b, sel)
  {
    if a == [] {
      assert a + b == b;
    } else {
      assert (a + b)[1..] == a[1..] + b;
      OnlyAppend(a[1..], b, sel);
    }
  }

  lemma {:induction false} WithoutAppend(a: seq<Route>, b: seq<Route>, sel: Selector)
    ensures Without(a + b, sel) == Without(a, sel) + Without(b, sel)
  {
    if a == [] {
      assert a + b == b;
    } else {
      assert (a + b)[1..] == a[1..] + b;
      WithoutAppend(a[1..], b, sel);
    }
  }

  lemma {:induction false} FirstAppend(a: seq<Route>, b: seq<Route>, sel: Selector)
    ensures First(a + b, sel) == if First(a, sel).Some? then First(a, sel) else First(b, sel)
  {
    if a == [] {
      assert a + b == b;
    } else {
      assert (a + b)[1..] == a[1..] + b;
      FirstAppend(a[1..], b, sel);
    }
  }

  /** Dropping routes other than the first match leaves it the first match. */
  lemma {:induction false} FirstWithout(rs: seq<Route>, sel: Selector, drop: Selector)
    requires First(rs, sel).Some? && !Matches(drop, First(rs, sel).value)
    ensures First(Without(rs, drop), sel) == First(rs, sel)
  {
    if !Matches(sel, rs[0]) {
      FirstWithout(rs[1..], sel, drop);
    }
  }

  /** A selector that matches nothing changes nothing. */
  lemma {:induction false} WithoutNothing(rs: seq<Route>, sel: Selector)
    requires forall r :: r in rs ==> !Matches(sel, r)
    ensures Without(rs, sel) == rs
    ensures Only(rs, sel) == []
  {
    if rs != [] {
      var rest := rs[1..];
      assert rs == [rs[0]] + rest;
      assert !Matches(sel, rs[0]) by {
        assert rs[0] in rs;
      }
      WithoutNothing(rest, sel);
    }
  }

  lemma {:induction false} FirstOfOnly(rs: seq<Route>, sel: Selector)
    ensures First(rs, sel) == if Only(rs, sel) == [] then None else Some(Only(rs, sel)[0])
  {
    if rs != [] {
      FirstOfOnly(rs[1..], sel);
    }
  }

  /** Removals commute. */
  lemma {:induction false} WithoutCommutes(rs: seq<Route>, a: Selector, b: Selector)
    ensures Without(Without(rs, a), b) == Without(Without(rs, b), a)
  {
    if rs != [] {
      WithoutCommutes(rs[1..], a, b);
    }
  }

  /** Removing what a narrower selector picks does not change what disjoint ones see. */
  lemma {:induction false} OnlyWithoutDisjoint(rs: seq<Route>, keep: Selector, drop: Selector)
    requires forall r :: Matches(keep, r) ==> !Matches(drop, r)
    ensures Only(Without(rs, drop), keep) == Only(rs, keep)
  {
    if rs != [] {
      OnlyWithoutDisjoint(rs[1..], keep, drop);
    }
  }

  lemma {:induction false} WithoutSubsumed(rs: seq<Route>, wide: Selector, narrow: Selector)
    requires forall r :: Matches(narrow, r) ==> Matches(wide, r)
    ensures Without(Without(rs, narrow), wide) == Without(rs, wide)
  {
    if rs != [] {
      WithoutSubsumed(rs[1..], wide, narrow);
    }
  }

  function DefaultVia(iface: string, gw: string, metric: nat): (r: Route)
    ensures IsDefault(r)
  {
    Route("", gw, iface, metric)
  }

  function Replaced(rs: seq<Route>, iface: string, gw: string, metric: nat): seq<Route> {
    Without(rs, Defaults) + [DefaultVia(iface, gw, metric)]
  }

  function SetOn(rs: seq<Route>, iface: string, gw: string, metric: nat): seq<Route> {
    Without(rs, DefaultsOn(iface)) + [DefaultVia(iface, gw, metric)]
  }

  /** The first route to dst is gone: a netlink delete by destination removes one route. */
  function RemoveFirst(rs: seq<Route>, sel: Selector): seq<Route> {
    if rs == [] then []
    else if Matches(sel, rs[0]) then rs[1..]
    else [rs[0]] + RemoveFirst(rs[1..], sel)
  }

  lemma {:induction false} RemoveFirstAfter(a: seq<Route>, r: Route, b: seq<Route>, sel: Selector)
    requires forall x :: x in a ==> !Matches(sel, x)
    requires Matches(sel, r)
    ensures RemoveFirst(a + [r] + b, sel) == a + b
  {
    var s := a + [r] + b;
    if a == [] {
      assert s == [r] + b;
    } else {
      assert a[0] in a && s[0] == a[0] && s[1..] == a[1..] + [r] + b;
      RemoveFirstAfter(a[1..], r, b, sel);
    }
  }

  /** After ReplaceDefault the table has exactly one default, the requested
      one, and every other route in its old order. */
  lemma ReplacedIsTheOnlyDefault(rs: seq<Route>, iface: string, gw: string, metric: nat)
    ensures var out := Replaced(rs, iface, gw, metric);
            && Only(out, Defaults) == [DefaultVia(iface, gw, metric)]
            && Without(out, Defaults) == Without(rs, Defaults)
            && First(out, Defaults) == Some(DefaultVia(iface, gw, metric))
  {
    var d := [DefaultVia(iface, gw, metric)];
    OnlyAppend(Without(rs, Defaults), d, Defaults);
    WithoutAppend(Without(rs, Defaults), d, Defaults);
    WithoutNothing(Without(rs, Defaults), Defaults);
    FirstOfOnly(Replaced(rs, iface, gw, metric), Defaults);
    assert Only(d, Defaults) == d && Without(d, Defaults) == [];
  }

  /** After SetDefaultForIface the interface has exactly one default, and
      everything that is not a default of that interface is unchanged. */
  lemma SetOnIsTheOnlyDefaultThere(rs: seq<Route>, iface: string, gw: string, metric: nat)
    ensures var out := SetOn(rs, iface, gw, metric);
            && Only(out, DefaultsOn(iface)) == [DefaultVia(iface, gw, metric)]
            && Without(out, DefaultsOn(iface)) == Without(rs, DefaultsOn(iface))
            && (forall other :: other != iface ==> Only(out, DefaultsOn(other)) == Only(rs, DefaultsOn(other)))
            && Without(out, Defaults) == Without(rs, Defaults)
  {
    var d := [DefaultVia(iface, gw, metric)];
    var rest := Without(rs, DefaultsOn(iface));
    OnlyAppend(rest, d, DefaultsOn(iface));
    WithoutAppend(rest, d, DefaultsOn(iface));
    WithoutNothing(rest, DefaultsOn(iface));
    assert Only(d, DefaultsOn(iface)) == d && Without(d, DefaultsOn(iface)) == [];
    forall other | other != iface
      ensures Only(rest + d, DefaultsOn(other)) == Only(rs, DefaultsOn(other))
    {
      OnlyAppend(rest, d, DefaultsOn(other));
      OnlyWithoutDisjoint(rs, DefaultsOn(other), DefaultsOn(iface));
      assert Only(d, DefaultsOn(other)) == [];
    }
    WithoutAppend(rest, d, Defaults);
    WithoutSubsumed(rs, Defaults, DefaultsOn(iface));
    assert Without(d, Defaults) == [];
  }

  datatype Setting = Setting(iface: string, gw: string, metric: nat)

  function ApplySettings(rs: seq<Route>, ss: seq<Setting>): seq<Route>
    decreases |ss|
  {
    if ss == [] then rs
    else ApplySettings(SetOn(rs, ss[0].iface, ss[0].gw, ss[0].metric), ss[1..])
  }

  /** The last setting made on iface, if any. */
  function LastSetting(ss: seq<Setting>, iface: string): Option<Setting> {
    if ss == [] then None
    else if LastSetting(ss[1..], iface).Some? then LastSetting(ss[1..], iface)
    else if ss[0].iface == iface then Some(ss[0])
    else None
  }

  /** After any sequence of settings each interface that was set has its last
      setting as its one default, and the others have the defaults they had. */
  lemma {:induction false} SettingsDecideEachInterface(rs: seq<Route>, ss: seq<Setting>, iface: string)
    ensures Only(ApplySettings(rs, ss), DefaultsOn(iface)) ==
            match LastSetting(ss, iface)
            case Some(s) => [DefaultVia(iface, s.gw, s.metric)]
            case None => Only(rs, DefaultsOn(iface))
    ensures Without(ApplySettings(rs, ss), Defaults) == Without(rs, Defaults)
    decreases |ss|
  {
    if ss != [] {
      SetOnIsTheOnlyDefaultThere(rs, ss[0].iface, ss[0].gw, ss[0].metric);
      SettingsDecideEachInterface(SetOn(rs, ss[0].iface, ss[0].gw, ss[0].metric), ss[1..], iface);
    }
  }

  predicate Candidate(r: Route) {
    IsDefault(r) && r.iface != ""
  }

  /** best is the interface of the lowest-metric default, the first one on
      ties, or "" when there is no default with a known interface. */
  ghost predicate IsPreferred(rs: seq<Route>, best: string) {
    if best == "" then forall k :: 0 <= k < |rs| ==> !Candidate(rs[k])
    else exists k :: 0 <= k < |rs| && LeastAt(rs, k) && rs[k].iface == best
  }

  ghost predicate LeastAt(rs: seq<Route>, k: nat)
    requires k < |rs|
  {
    && Candidate(rs[k])
    && forall j :: 0 <= j < |rs| && Candidate(rs[j]) ==>
         rs[k].metric <= rs[j].metric && (j < k ==> rs[k].metric < rs[j].metric)
  }

  /** preferredDefaultIface (cmd/net): None stands for a failed or missing listing. */
  method PreferredDefaultIface(listing: Option<seq<Route>>) returns (best: string)
    ensures listing.None? ==> best == ""
    ensures listing.Some? ==> IsPreferred(listing.value, best)
  {
    if listing.None? {
      return "";
    }
    var routes := listing.value;
    best := "";
    var bestMetric: int := -1;
    ghost var at := 0;
    for i := 0 to |routes|
      invariant bestMetric == -1 <==> best == ""
      invariant best == "" ==> forall k :: 0 <= k < i ==> !Candidate(routes[k])
      invariant best != "" ==>
                  at < i && Candidate(routes[at]) && routes[at].iface == best && routes[at].metric == bestMetric
      invariant best != "" ==> forall j :: 0 <= j < i && Candidate(routes[j]) ==>
                  bestMetric <= routes[j].metric && (j < at ==> bestMetric < routes[j].metric)
    {
      var r := routes[i];
      if !IsDefault(r) || r.iface == "" {
        continue;
      }
      if bestMetric == -1 || r.metric < bestMetric {
        best, bestMetric := r.iface, r.metric;
        at := i;
      }
    }
    if best != "" {
      assert LeastAt(routes, at);
    }
  }

  /** Of several defaults of least metric the first in the table decides. */
  lemma FirstLeastIsPreferred(rs: seq<Route>, best: string, k: nat)
    requires IsPreferred(rs, best) && k < |rs| && IsDefault(rs[k]) && rs[k].iface != ""
    requires forall j :: 0 <= j < k && IsDefault(rs[j]) && rs[j].iface != "" ==> rs[k].metric < rs[j].metric
    requires forall j :: k < j < |rs| && IsDefault(rs[j]) && rs[j].iface != "" ==> rs[k].metric <= rs[j].metric
    ensures best == rs[k].iface
  {
    assert Candidate(rs[k]);
    var i :| 0 <= i < |rs| && LeastAt(rs, i) && rs[i].iface == best;
    assert Candidate(rs[i]);
  }

  /** After any sequence of per-interface settings, the preferred interface is
      the one whose last-set metric is smallest, provided no default of an
      interface that was never set beats it. */
  lemma SmallestLastMetricIsPreferred(rs: seq<Route>, ss: seq<Setting>, b: string, best: string)
    requires b != "" && LastSetting(ss, b).Some?
    requires forall i :: i != b && LastSetting(ss, i).Some? ==>
               LastSetting(ss, b).value.metric < LastSetting(ss, i).value.metric
    requires forall r :: r in rs && Candidate(r) && LastSetting(ss, r.iface).None? ==>
               LastSetting(ss, b).value.metric < r.metric
    requires IsPreferred(ApplySettings(rs, ss), best)
    ensures best == b
  {
    var out := ApplySettings(rs, ss);
    var least := LastSetting(ss, b).value.metric;
    SettingsDecideEachInterface(rs, ss, b);
    var mine := DefaultVia(b, LastSetting(ss, b).value.gw, least);
    assert mine in Only(out, DefaultsOn(b));
    var m :| 0 <= m < |out| && out[m] == mine;
    assert Candidate(out[m]);
    assert best != "";
    var k :| 0 <= k < |out| && LeastAt(out, k) && out[k].iface == best;
    assert out[k].metric <= least;
    SettingsDecideEachInterface(rs, ss, best);
    assert out[k] in Only(out, DefaultsOn(best));
  }

  predicate Buildable(links: set<string>, validV4: string -> bool, iface: string, gw: string) {
    iface in links && (gw == "" || validV4(gw))
  }

  /** What applyDefaultRouteMetric (pkg/network) does to the table. */
  function MetricApplied(rs: seq<Route>, links: set<string>, validV4: string -> bool, iface: string, metric: int)
    : seq<Route>
  {
    if metric <= 0 || iface !in links then rs
    else match First(rs, DefaultsOn(iface))
      case None => rs
      case Some(r) =>
        if r.gw == "" || r.metric == metric || !validV4(r.gw) then rs else SetOn(rs, iface, r.gw, metric)
  }

  /** Applying a metric touches only the defaults of its own interface, and a
      gateway default there ends up with that metric and the same gateway;
      without one, or with the metric it has already, nothing changes. */
  lemma MetricAppliedIsLocal(rs: seq<Route>, links: set<string>, validV4: string -> bool, iface: string, metric: int)
    ensures var out := MetricApplied(rs, links, validV4, iface, metric);
            && Without(out, DefaultsOn(iface)) == Without(rs, DefaultsOn(iface))
            && (forall other :: other != iface ==> Only(out, DefaultsOn(other)) == Only(rs, DefaultsOn(other)))
            && (metric > 0 && iface in links && First(rs, DefaultsOn(iface)).Some? ==>
                  var d := First(rs, DefaultsOn(iface)).value;
                  d.gw != "" && validV4(d.gw) ==>
                    First(out, DefaultsOn(iface)).Some? && First(out, DefaultsOn(iface)).value.gw == d.gw
                    && First(out, DefaultsOn(iface)).value.metric == metric)
            && (metric <= 0 || iface !in links || First(rs, DefaultsOn(iface)).None? ==> out == rs)
            && (First(rs, DefaultsOn(iface)).Some? ==>
                  var d := First(rs, DefaultsOn(iface)).value;
                  d.gw == "" || !validV4(d.gw) || d.metric == metric ==> out == rs)
  {
    var out := MetricApplied(rs, links, validV4, iface, metric);
    if out != rs {
      var d := First(rs, DefaultsOn(iface)).value;
      SetOnIsTheOnlyDefaultThere(rs, iface, d.gw, metric);
      FirstOfOnly(out, DefaultsOn(iface));
    } else if metric > 0 && iface in links && First(rs, DefaultsOn(iface)).Some? {
      var d := First(rs, DefaultsOn(iface)).value;
      if d.gw != "" && validV4(d.gw) && d.metric != metric {
        SetOnIsTheOnlyDefaultThere(rs, iface, d.gw, metric);
        FirstOfOnly(out, DefaultsOn(iface));
      }
    }
  }

  /** The route dst a bare IPv4 host address stands for. */
  function HostDst(ip: string): (d: string)
    ensures !IsDefault(Route(d, "", "", 0))
  {
    assert (ip + "/32")[|ip| + 2] == '2';
    assert HasSuffix(ip + "/32", "/32");
    ip + "/32"
  }

  function RouteReplaced(rs: seq<Route>, iface: string, ip: string, gw: string): seq<Route> {
    Without(rs, To(HostDst(ip))) + [Route(HostDst(ip), gw, iface, 0)]
  }

  lemma DeleteStep(listed: seq<Route>, i: nat, sel: Selector)
    requires i < |listed|
    ensures var now := Without(listed[..i], sel) + listed[i..];
            Without(listed[..i + 1], sel) + listed[i + 1..] ==
            if Matches(sel, listed[i]) then RemoveFirst(now, sel) else now
  {
    var before, r, rest := listed[..i], listed[i], listed[i + 1..];
    assert listed[..i + 1] == before + [r];
    assert listed[i..] == [r] + rest;
    WithoutOneMore(before, r, rest, sel);
  }

  lemma WithoutOneMore(before: seq<Route>, r: Route, rest: seq<Route>, sel: Selector)
    ensures var kept := Without(before, sel);
            && kept + ([r] + rest) == kept + [r] + rest
            && Without(before + [r], sel) == (if Matches(sel, r) then kept else kept + [r])
            && (Matches(sel, r) ==> RemoveFirst(kept + ([r] + rest), sel) == kept + rest)
  {
    var kept := Without(before, sel);
    assert kept + ([r] + rest) == kept + [r] + rest;
    WithoutAppend(before, [r], sel);
    if Matches(sel, r) {
      RemoveFirstAfter(kept, r, rest, sel);
    }
  }

  /** The kernel's main table as the netlink managers see and edit it. */
  class RouteTable {
    var routes: seq<Route>
    var links: set<string>
    const validV4: string -> bool

    constructor (routes: seq<Route>, links: set<string>, validV4: string -> bool)
      ensures this.routes == routes && this.links == links && this.validV4 == validV4
    {
      this.routes, this.links, this.validV4 := routes, links, validV4;
    }

    method GetDefaultRoute() returns (r: Option<Route>)
      ensures r == First(routes, Defaults)
    {
      r := Find(Defaults);
    }

    method GetDefaultRouteForIface(iface: string) returns (r: Option<Route>)
      ensures r == if iface in links then First(routes, DefaultsOn(iface)) else None
    {
      if iface !in links {
        return None;
      }
      r := Find(DefaultsOn(iface));
    }

    method Find(sel: Selector) returns (r: Option<Route>)
      ensures r == First(routes, sel)
    {
      for i := 0 to |routes|
        invariant First(routes, sel) == First(routes[i..], sel)
      {
        if Matches(sel, routes[i]) {
          return Some(routes[i]);
        }
      }
      return None;
    }

    /** Deletes the listed default routes one by one. */
    method DeleteDefaultRoutes(sel: Selector)
      requires sel.Defaults? || sel.DefaultsOn?
      modifies this`routes
      ensures routes == Without(old(routes), sel)
    {
      var listed := routes;
      for i := 0 to |listed|
        invariant routes == Without(listed[..i], sel) + listed[i..]
      {
        DeleteStep(listed, i, sel);
        if Matches(sel, listed[i]) {
          routes := RemoveFirst(routes, sel);
        }
      }
      assert listed[..|listed|] == listed;
    }

    method ReplaceDefault(iface: string, gw: string, metric: nat) returns (ok: bool)
      modifies this`routes
      ensures ok == Buildable(links, validV4, iface, gw)
      ensures routes == if ok then Replaced(old(routes), iface, gw, metric) else old(routes)
    {
      if iface !in links || (gw != "" && !validV4(gw)) {
        return false;
      }
      DeleteDefaultRoutes(Defaults);
      routes := routes + [DefaultVia(iface, gw, metric)];
      return true;
    }

    method SetDefaultForIface(iface: string, gw: string, metric: nat) returns (ok: bool)
      modifies this`routes
      ensures ok == Buildable(links, validV4, iface, gw)
      ensures routes == if ok then SetOn(old(routes), iface, gw, metric) else old(routes)
    {
      if iface !in links || (gw != "" && !validV4(gw)) {
        return false;
      }
      DeleteDefaultRoutes(DefaultsOn(iface));
      routes := routes + [DefaultVia(iface, gw, metric)];
      return true;
    }

    /** ReplaceRoute for a bare IPv4 host address. */
    method ReplaceRoute(iface: string, ip: string, gw: string) returns (ok: bool)
      modifies this`routes
      ensures ok == (Buildable(links, validV4, iface, gw) && validV4(ip))
      ensures routes == if ok then RouteReplaced(old(routes), iface, ip, gw) else old(routes)
    {
      if iface !in links || !validV4(ip) || (gw != "" && !validV4(gw)) {
        return false;
      }
      routes := Without(routes, To(HostDst(ip))) + [Route(HostDst(ip), gw, iface, 0)];
      return true;
    }

    /** DelRoute for a bare IPv4 host address; a missing route is not an error. */
    method DelRoute(ip: string) returns (ok: bool)
      modifies this`routes
      ensures ok == validV4(ip)
      ensures routes == if ok then RemoveFirst(old(routes), To(HostDst(ip))) else old(routes)
    {
      if !validV4(ip) {
        return false;
      }
      routes := RemoveFirst(routes, To(HostDst(ip)));
      return true;
    }

    /** Deleting a link drops its routes. */
    method DeleteLink(iface: string)
      modifies this
      ensures links == old(links) - {iface}
      ensures routes == Without(old(routes), OnLink(iface))
    {
      links := links - {iface};
      routes := Without(routes, OnLink(iface));
    }

    /** applyDefaultRouteMetric (pkg/network). */
    method ApplyDefaultRouteMetric(iface: string, metric: int)
      modifies this`routes
      ensures routes == MetricApplied(old(routes), links, validV4, iface, metric)
    {
      if metric <= 0 {
        return;
      }
      var found := GetDefaultRouteForIface(iface);
      if found.None? {
        return;
      }
      var route := found.value;
      if route.gw == "" {
        return;
      }
      if route.metric == metric {
        return;
      }
      var _ := SetDefaultForIface(iface, route.gw, metric);
    }
  }
}
