/** VPN-provided DNS over whole runs: each connect restores the previous VPN's
    snapshot before it takes its own, so a chain of VPNs ends where it began. */
module VpnDns {
  import opened Strings
  import opened VpnState
  import opened Dns
  import opened VpnLifecycle
  import opened VpnRuns
  import WgParse

  // ---- what the record keeps of the servers

  /** The snapshot is one comma-separated field of a "|"-separated file: of an
      entry that holds a "|" only what stands before it is read back, and
      nothing of the entries after it; every comma cuts. */
  function Pieces(prior: seq<string>): seq<string> {
    if prior == [] then []
    else if '|' in prior[0] then Split(Split(prior[0], '|')[0], ',')
    else Split(prior[0], ',') + Pieces(prior[1..])
  }

  function UpTo(s: string, sep: char): string {
    if s == [] || s[0] == sep then [] else [s[0]] + UpTo(s[1..], sep)
  }

  lemma {:induction false} SplitUpTo(s: string, sep: char)
    ensures Split(s, sep)[0] == UpTo(s, sep)
  {
    if s != [] {
      SplitUpTo(s[1..], sep);
    }
  }

  lemma {:induction false} UpToAppend(a: string, b: string, sep: char)
    ensures UpTo(a + b, sep) == if sep in a then UpTo(a, sep) else a + UpTo(b, sep)
  {
    if a == [] {
      assert a + b == b;
    } else {
      var c, rest := a[0], a[1..];
      assert a == [c] + rest && a + b == [c] + (rest + b);
      UpToAppend(rest, b, sep);
      UpToHead(c, rest, sep);
      UpToHead(c, rest + b, sep);
      assert [c] + (rest + UpTo(b, sep)) == [c] + rest + UpTo(b, sep);
    }
  }

  lemma UpToHead(c: char, s: string, sep: char)
    ensures UpTo([c] + s, sep) == if c == sep then [] else [c] + UpTo(s, sep)
  {
    assert ([c] + s)[1..] == s;
  }

  lemma FirstPart(a: string, b: string, sep: char)
    ensures Split(a + b, sep)[0] == if sep in a then Split(a, sep)[0] else a + Split(b, sep)[0]
  {
    SplitUpTo(a + b, sep);
    SplitUpTo(a, sep);
    SplitUpTo(b, sep);
    UpToAppend(a, b, sep);
  }

  lemma {:induction false} FieldPieces(prior: seq<string>)
    requires prior != []
    ensures Split(Split(Join(prior, ','), '|')[0], ',') == Pieces(prior)
  {
    var e, rest := prior[0], prior[1..];
    if |prior| == 1 {
      if '|' !in e {
        SplitWhole(e, '|');
        assert Split(e, ',') + [] == Split(e, ',');
      }
    } else {
      var tail := Join(rest, ',');
      var head := e + [','];
      FirstPart(head, tail, '|');
      if '|' in e {
        FirstPart(e, [','], '|');
      } else {
        FieldPieces(rest);
        SplitAppend(e, ',', Split(tail, '|')[0]);
      }
    }
  }

  lemma {:induction false} ServersAreTrimmed(lines: seq<string>)
    ensures forall s :: s in ServersIn(lines) ==> s != "" && Trimmed(s)
  {
    if lines != [] {
      ServersAreTrimmed(lines[1..]);
      var l := TrimSpace(lines[0]);
      if KEYWORD <= l {
        TrimSpaceIsTrimmed(l[|KEYWORD|..]);
      }
    }
  }

  lemma {:induction false} JoinEnds(parts: seq<string>)
    requires parts != []
    requires forall s :: s in parts ==> s != "" && Trimmed(s)
    ensures Join(parts, ',') != "" && !IsSpace(Join(parts, ',')[|Join(parts, ',')| - 1])
  {
    assert parts[0] in parts;
    if |parts| > 1 {
      assert forall s :: s in parts[1..] ==> s in parts;
      JoinEnds(parts[1..]);
    }
  }

  /** Of a snapshot taken, written and read, exactly the pieces are left. */
  lemma SnapshotPieces(d: ResolvConf)
    requires NameserversOf(d) != []
    ensures Split(LastField(Snapshot(d)), ',') == Pieces(NameserversOf(d))
  {
    var prior := NameserversOf(d);
    ServersAreTrimmed(Split(d.content.value, '\n'));
    JoinEnds(prior);
    FieldPieces(prior);
  }

  // ---- when that is enough

  lemma PiecesOfOne(e: string, validIP: string -> bool)
    requires AddressText(validIP)
    ensures |Valid(Split(e, ','), validIP)| >= |Valid([e], validIP)|
    ensures Valid(Split(e, ','), validIP) == Valid([e], validIP) <==> (',' in e ==> Valid(Split(e, ','), validIP) == [])
  {
    if ',' in e {
      assert !validIP(e);
      assert Valid([e], validIP) == [];
    } else {
      SplitWhole(e, ',');
    }
  }

  lemma SameParts<T>(a: seq<T>, b: seq<T>, c: seq<T>, d: seq<T>)
    requires |a| >= |c| && |b| >= |d|
    ensures a + b == c + d <==> a == c && b == d
  {
    if a + b == c + d {
      assert |a| == |c|;
      assert a == (a + b)[..|a|] == (c + d)[..|c|] == c;
      assert b == (a + b)[|a|..] == (c + d)[|c|..] == d;
    }
  }

  /** No entry hides an address in a piece of itself: not between its commas,
      and not before its "|". */
  predicate HidesNone(prior: seq<string>, validIP: string -> bool) {
    prior != [] ==>
      var e := prior[0];
      if '|' in e then Valid(Split(Split(e, '|')[0], ','), validIP) == []
      else (',' in e ==> Valid(Split(e, ','), validIP) == []) && HidesNone(prior[1..], validIP)
  }

  /** The entries behind the first "|", which the record does not reach. */
  function CutOff(prior: seq<string>): seq<string> {
    if prior == [] then [] else if '|' in prior[0] then prior[1..] else CutOff(prior[1..])
  }

  lemma {:induction false} PiecesAgainst(prior: seq<string>, validIP: string -> bool)
    requires AddressText(validIP)
    ensures HidesNone(prior, validIP) ==>
              Valid(prior, validIP) == Valid(Pieces(prior), validIP) + Valid(CutOff(prior), validIP)
    ensures Valid(CutOff(prior), validIP) == [] ==>
              |Valid(Pieces(prior), validIP)| >= |Valid(prior, validIP)|
              && (Valid(Pieces(prior), validIP) == Valid(prior, validIP) <==> HidesNone(prior, validIP))
  {
    if prior != [] {
      var e, rest := prior[0], prior[1..];
      assert prior == [e] + rest;
      ValidAppend([e], rest, validIP);
      if '|' in e {
        assert !validIP(e) && Valid([e], validIP) == [];
        assert [] + Valid(rest, validIP) == Valid(rest, validIP);
      } else {
        PiecesAgainst(rest, validIP);
        PiecesOfOne(e, validIP);
        ValidAppend(Split(e, ','), Pieces(rest), validIP);
        var first := ',' in e ==> Valid(Split(e, ','), validIP) == [];
        Combine(Valid(Split(e, ','), validIP), Valid(Pieces(rest), validIP), Valid([e], validIP), Valid(rest, validIP),
                Valid(CutOff(rest), validIP), first, HidesNone(rest, validIP));
      }
    }
  }

  lemma Combine<T>(a: seq<T>, b: seq<T>, c: seq<T>, d: seq<T>, lost: seq<T>, first: bool, others: bool)
    requires |a| >= |c| && (a == c <==> first)
    requires others ==> d == b + lost
    requires lost == [] ==> |b| >= |d| && (b == d <==> others)
    ensures first && others ==> c + d == a + b + lost
    ensures lost == [] ==> |a + b| >= |c + d| && (a + b == c + d <==> first && others)
  {
    if first && others {
      assert a + (b + lost) == a + b + lost;
    }
    if lost == [] {
      SameParts(a, b, c, d);
    }
  }

  /** The record names the same addresses when no entry hides one and none is
      cut off. It fails when only one of the two is so: an address it gains can
      only be made up for by one that it loses. */
  lemma SnapshotIsFaithful(prior: seq<string>, validIP: string -> bool)
    requires AddressText(validIP)
    ensures HidesNone(prior, validIP) ==>
              (Valid(Pieces(prior), validIP) == Valid(prior, validIP) <==> Valid(CutOff(prior), validIP) == [])
    ensures Valid(CutOff(prior), validIP) == [] ==>
              (Valid(Pieces(prior), validIP) == Valid(prior, validIP) <==> HidesNone(prior, validIP))
  {
    PiecesAgainst(prior, validIP);
    if HidesNone(prior, validIP) {
      var p, l := Valid(Pieces(prior), validIP), Valid(CutOff(prior), validIP);
      assert |p + l| == |p| + |l|;
      if l == [] {
        assert p + l == p;
      }
    }
  }

  // ---- one connect and one disconnect

  /** A VPN whose servers a connect puts into resolv.conf, if it can be written. */
  predicate PutsServers(lib: Lib, cfg: VpnConfig) {
    && cfg.typ.WireGuard? && cfg.settings.Some? && !UsesDHCP(cfg.settings.value.dns)
    && Valid(cfg.settings.value.dns, lib.validIP) != []
  }

  /** The servers such a VPN leaves behind once it is disconnected: those the
      record kept of before, or its own when it kept none or they cannot be
      written. A write that fails leaves what was there, or what it got to. */
  function ServersLeft(lib: Lib, before: ResolvConf, cfg: VpnConfig, env: Env, undoWrite: Write): seq<string>
    requires cfg.settings.Some?
  {
    var kept := if Readable(before, env) then Valid(Pieces(NameserversOf(before)), lib.validIP) else [];
    var own := Valid(cfg.settings.value.dns, lib.validIP);
    match env.dnsWrite
    case Refused => NameserversOf(before)
    case Torn(left) => Nameservers(left)
    case Written =>
      if kept == [] then own
      else match undoWrite
        case Written => kept
        case Refused => own
        case Torn(left) => Nameservers(left)
  }

  /** The VPN has DNS settings that SetDNS accepts, if it can write them. */
  predicate TakesDNS(lib: Lib, cfg: VpnConfig) {
    && cfg.typ.WireGuard? && cfg.settings.Some? && cfg.settings.value.dns != []
    && (UsesDHCP(cfg.settings.value.dns) || Valid(cfg.settings.value.dns, lib.validIP) != [])
  }

  /** A daemon that lifts the immutable bit for itself. */
  predicate Lifts(cfg: VpnConfig, env: Env) {
    (cfg.typ.Tailscale? || cfg.typ.NetBird?) && cfg.acceptDNS && (env.unlocked || env.daemonOk)
  }

  /** What a bring-up does to resolv.conf, and what it remembers of it. */
  ghost predicate Applied(lib: Lib, before: ResolvConf, after: ResolvConf, snapshot: string, cfg: VpnConfig, env: Env) {
    if TakesDNS(lib, cfg) then
      var (d, ok) := AfterSetDNS(before, cfg.settings.value.dns, lib.validIP, env.dnsWrite);
      after == d && snapshot == if ok && Readable(before, env) then Snapshot(before) else ""
    else
      after == before && snapshot == ""
  }

  /** A bring-up that takes the VPN's DNS settings does so as SetDNS does, with a
      snapshot of before exactly when that worked and the file could be read;
      any other leaves resolv.conf alone but for a daemon's unlock. */
  lemma BringUpApplies(lib: Lib, w: World, cfg: VpnConfig, env: Env)
    ensures var b := BringUp(lib, w, cfg, env);
            && (b.ok && cfg.typ.WireGuard? ==> Applied(lib, w.dns, b.world.dns, b.mem.originalDNS, cfg, env))
            && (!b.ok || !cfg.typ.WireGuard? ==>
                  b.mem.originalDNS == ""
                  && b.world.dns == if Lifts(cfg, env) then w.dns.(immutable := false) else w.dns)
  {
    if cfg.typ.WireGuard? {
      var (gw, ifc) := Gateway(w.routes);
    }
  }

  /** Restoring a saved field: its valid servers, or no change of text without any. */
  lemma RestoredServers(lib: Lib, d: ResolvConf, st: State, write: Write)
    requires AddressText(lib.validIP)
    ensures var back := Valid(Split(st.origDns, ','), lib.validIP);
            var r := RestoredDNS(lib, d, st, write);
            && (back != [] && write.Written? ==> st.origDns != "" && NameserversOf(r) == back && r.immutable && r.owned)
            && (back != [] && write.Torn? ==> r.content == Some(write.left))
            && (back == [] || write.Refused? ==> r.content == d.content)
  {
    var parts := Split(st.origDns, ',');
    if st.origDns == "" {
      assert parts == [""] && Valid(parts, lib.validIP) == [];
    } else {
      SetDNSReads(d, parts, lib.validIP, write);
      ValidNonEmpty(parts, lib.validIP);
      if UsesDHCP(parts) {
        assert Valid(["dhcp"], lib.validIP) == [];
      }
    }
  }

  lemma RestoreAfterDisconnect(lib: Lib, w1: World, st: State, name: string, env: Env)
    requires w1.state == Some(st) && st.typ != "" && AfterDisconnect(lib, w1, Mem("", ""), name, env).ok
    ensures AfterDisconnect(lib, w1, Mem("", ""), name, env).world.dns == RestoredDNS(lib, w1.dns, st, env.undoWrite)
  {
  }

  /** The record of such a connect holds of the snapshot what the file brings back. */
  lemma ConnectPutsServers(
      lib: Lib, w: World, mem: Mem, name: string, cfg: VpnConfig, env: Env, gw: string, ifc: string)
    requires Tracks(lib, w, gw, ifc) && w.state == None
    requires Sane(Up(name, Some(cfg), env, true), ifc) && env.writeOk && PutsServers(lib, cfg)
    requires AfterConnect(lib, w, mem, name, Some(cfg), env).ok
    ensures var w1 := AfterConnect(lib, w, mem, name, Some(cfg), env).world;
            && w1.dns == AfterSetDNS(w.dns, cfg.settings.value.dns, lib.validIP, env.dnsWrite).0
            && w1.state.Some? && w1.state.value.typ != ""
            && w1.state.value.origDns
               == LastField(if env.dnsWrite.Written? && Readable(w.dns, env) then Snapshot(w.dns) else "")
  {
    BringUpTracks(lib, w, cfg, env, gw, ifc);
    BringUpApplies(lib, w, cfg, env);
    RecordWritten(lib, w, mem, name, cfg, env);
    var b := BringUp(lib, w, cfg, env);
    RecordReadsBack(name, cfg, b.mem.endpointRoute, b.mem.originalDNS, gw, ifc);
  }

  /** One VPN with servers of its own, connected, recorded and disconnected: what
      resolv.conf names afterwards, for every resolv.conf before and however
      each reading and writing of it turns out; and so, when it can be written,
      it names what it named before exactly when the record kept the same
      addresses, or kept none and the VPN's are the same. */
  lemma ServersAfterDisconnect(
      lib: Lib, w: World, mem: Mem, name: string, cfg: VpnConfig, env: Env, name2: string, env2: Env,
      gw: string, ifc: string)
    requires AddressText(lib.validIP) && Tracks(lib, w, gw, ifc) && w.state == None
    requires Sane(Up(name, Some(cfg), env, true), ifc) && env.writeOk && PutsServers(lib, cfg)
    requires AfterConnect(lib, w, mem, name, Some(cfg), env).ok
    requires var w1 := AfterConnect(lib, w, mem, name, Some(cfg), env).world;
             AfterDisconnect(lib, w1, Mem("", ""), name2, env2).ok
    ensures var w1 := AfterConnect(lib, w, mem, name, Some(cfg), env).world;
            var w2 := AfterDisconnect(lib, w1, Mem("", ""), name2, env2).world;
            var before := Valid(NameserversOf(w.dns), lib.validIP);
            var kept := Valid(Pieces(NameserversOf(w.dns)), lib.validIP);
            && NameserversOf(w2.dns) == ServersLeft(lib, w.dns, cfg, env, env2.undoWrite)
            && (env.dnsWrite.Written? && env2.undoWrite.Written? ==>
                  (NameserversOf(w2.dns) == before <==>
                     if Readable(w.dns, env) && kept != [] then kept == before
                     else Valid(cfg.settings.value.dns, lib.validIP) == before))
  {
    ConnectPutsServers(lib, w, mem, name, cfg, env, gw, ifc);
    var w1 := AfterConnect(lib, w, mem, name, Some(cfg), env).world;
    var st := w1.state.value;
    RestoreAfterDisconnect(lib, w1, st, name2, env2);
    ServersRestored(lib, w.dns, w1.dns, st, cfg, env, env2.undoWrite);
  }

  lemma ServersRestored(
      lib: Lib, before: ResolvConf, during: ResolvConf, st: State, cfg: VpnConfig, env: Env, undoWrite: Write)
    requires AddressText(lib.validIP) && PutsServers(lib, cfg)
    requires during == AfterSetDNS(before, cfg.settings.value.dns, lib.validIP, env.dnsWrite).0
    requires st.origDns == LastField(if env.dnsWrite.Written? && Readable(before, env) then Snapshot(before) else "")
    ensures NameserversOf(RestoredDNS(lib, during, st, undoWrite)) == ServersLeft(lib, before, cfg, env, undoWrite)
  {
    RestoredServers(lib, during, st, undoWrite);
    SetDNSReads(before, cfg.settings.value.dns, lib.validIP, env.dnsWrite);
    ValidNonEmpty(cfg.settings.value.dns, lib.validIP);
    if env.dnsWrite.Written? {
      FieldOfSnapshot(lib, before, env);
    } else {
      assert LastField("") == "";
    }
  }

  /** Such a VPN connected without a record: nothing brings the servers of
      before back, and every disconnect fails. */
  lemma UnrecordedServersStay(lib: Lib, w: World, mem: Mem, name: string, cfg: VpnConfig, env: Env)
    requires AddressText(lib.validIP) && w.state == None && !env.writeOk && PutsServers(lib, cfg)
    requires AfterConnect(lib, w, mem, name, Some(cfg), env).ok
    ensures var w1 := AfterConnect(lib, w, mem, name, Some(cfg), env).world;
            && w1.state == None
            && NameserversOf(w1.dns) == (match env.dnsWrite
                                         case Written => Valid(cfg.settings.value.dns, lib.validIP)
                                         case Refused => NameserversOf(w.dns)
                                         case Torn(left) => Nameservers(left))
            && forall m, n, env2 :: AfterDisconnect(lib, w1, m, n, env2) == Outcome(w1, m, false)
  {
    BringUpApplies(lib, w, cfg, env);
    BringUpKeepsState(lib, w, cfg, env);
    SetDNSReads(w.dns, cfg.settings.value.dns, lib.validIP, env.dnsWrite);
    ValidNonEmpty(cfg.settings.value.dns, lib.validIP);
  }

  lemma BringUpKeepsState(lib: Lib, w: World, cfg: VpnConfig, env: Env)
    ensures BringUp(lib, w, cfg, env).world.state == w.state
  {
    if cfg.typ.WireGuard? {
      var (gw, ifc) := Gateway(w.routes);
      WireGuardShape(lib, w, cfg, env, gw, ifc);
    }
  }

  lemma FieldOfSnapshot(lib: Lib, d: ResolvConf, env: Env)
    requires AddressText(lib.validIP)
    ensures var field := LastField(if Readable(d, env) then Snapshot(d) else "");
            Valid(Split(field, ','), lib.validIP)
            == if Readable(d, env) then Valid(Pieces(NameserversOf(d)), lib.validIP) else []
  {
    if Readable(d, env) && NameserversOf(d) != [] {
      SnapshotPieces(d);
    } else {
      assert LastField("") == "";
      assert Split("", ',') == [""];
      assert Valid([""], lib.validIP) == [];
    }
  }

  // ---- two failing runs

  const OWN := WG0.(gateway := false, settings := Some(WgParse.Settings(0, ["10.8.0.1"])))

  /** The connect and the disconnect of OWN on a host with these servers. */
  function Served(servers: seq<string>): World {
    HOME.(dns := ResolvConf(Some(Render(servers)), false, false))
  }

  predicate AllGood(e: Env) {
    && e.stopOk && e.undoWrite.Written? && e.wgAvailable && e.addOk && e.configureOk && e.upOk && e.tunnelRoutes == []
    && e.endpointIP == "" && e.dnsReadable && e.dnsWrite.Written? && e.writeOk
  }

  lemma ServedRun(lib: Lib, env: Env, servers: seq<string>)
    requires AddressText(lib.validIP) && lib.validV4("10.0.0.1") && lib.validIP("10.8.0.1") && AllGood(env)
    requires forall s :: s in servers ==> Word(s)
    ensures var w := Served(servers);
            var o1 := AfterConnect(lib, w, Mem("", ""), "work", Some(OWN), env);
            var o2 := AfterDisconnect(lib, o1.world, Mem("", ""), "", env);
            && NameserversOf(w.dns) == servers && o1.ok && o2.ok
            && NameserversOf(o2.world.dns) == ServersLeft(lib, w.dns, OWN, env, Written)
  {
    var w := Served(servers);
    RenderReads(servers);
    ServedConnects(lib, env, servers);
    var w1 := AfterConnect(lib, w, Mem("", ""), "work", Some(OWN), env).world;
    StoppedDisconnects(lib, w1, env);
    ServersAfterDisconnect(lib, w, Mem("", ""), "work", OWN, env, "", env, "10.0.0.1", "eth0");
  }

  lemma ServedConnects(lib: Lib, env: Env, servers: seq<string>)
    requires AddressText(lib.validIP) && lib.validV4("10.0.0.1") && lib.validIP("10.8.0.1") && AllGood(env)
    ensures var w := Served(servers);
            && Tracks(lib, w, "10.0.0.1", "eth0") && Sane(Up("work", Some(OWN), env, true), "eth0")
            && PutsServers(lib, OWN)
            && AfterConnect(lib, w, Mem("", ""), "work", Some(OWN), env).ok
            && AfterConnect(lib, w, Mem("", ""), "work", Some(OWN), env).world.state.Some?
  {
    var w := Served(servers);
    HomeTracks(lib, OWN);
    ConnectSucceedsIff(lib, w, Mem("", ""), "work", Some(OWN), env);
    ConnectPutsServers(lib, w, Mem("", ""), "work", OWN, env, "10.0.0.1", "eth0");
  }

  lemma StoppedDisconnects(lib: Lib, w: World, env: Env)
    requires w.state.Some? && env.stopOk
    ensures AfterDisconnect(lib, w, Mem("", ""), "", env).ok
  {
  }

  /** One name server becomes two, because the entry before it hides an address
      behind a comma: "x,8.8.8.8" and "1.1.1.1" end as "8.8.8.8" and "1.1.1.1". */
  lemma HiddenAddress(lib: Lib, env: Env, x: string, hidden: string, ip: string)
    requires AddressText(lib.validIP) && lib.validV4("10.0.0.1") && lib.validIP("10.8.0.1") && AllGood(env)
    requires Word(x) && '|' !in x && lib.validIP(hidden) && lib.validIP(ip)
    ensures var w := Served([x + [','] + hidden, ip]);
            var o1 := AfterConnect(lib, w, Mem("", ""), "work", Some(OWN), env);
            var o2 := AfterDisconnect(lib, o1.world, Mem("", ""), "", env);
            && o1.ok && o2.ok && Valid(NameserversOf(w.dns), lib.validIP) == [ip]
            && |Valid(NameserversOf(o2.world.dns), lib.validIP)| >= 2
  {
    WordPair(x, ',', hidden);
    ServedRun(lib, env, [x + [','] + hidden, ip]);
    CommaHides(x, hidden, ip, lib.validIP);
    ValidOfValid(Valid(Pieces([x + [','] + hidden, ip]), lib.validIP), lib.validIP);
  }

  lemma WordPair(a: string, sep: char, b: string)
    requires Word(a) && Word(b) && !IsSpace(sep)
    ensures Word(a + [sep] + b)
  {
    var s := a + [sep] + b;
    forall i | 0 <= i < |s|
      ensures !IsSpace(s[i])
    {
      assert s[i] == if i < |a| then a[i] else if i == |a| then sep else b[i - |a| - 1];
    }
  }

  lemma CommaHides(a: string, b: string, ip: string, validIP: string -> bool)
    requires AddressText(validIP) && validIP(b) && validIP(ip) && '|' !in a
    ensures var e := a + [','] + b;
            Valid([e, ip], validIP) == [ip] && |Valid(Pieces([e, ip]), validIP)| >= 2
  {
    var e := a + [','] + b;
    assert e[|a|] == ',';
    SplitAppend(a, ',', b);
    SplitWhole(b, ',');
    ValidAppend(Split(a, ','), [b], validIP);
    assert Valid([b], validIP) == [b];
    TwoEntries(e, ip, validIP);
  }

  lemma TwoEntries(e: string, ip: string, validIP: string -> bool)
    requires AddressText(validIP) && !validIP(e) && validIP(ip) && '|' !in e
    ensures Valid([e, ip], validIP) == [ip]
    ensures Valid(Pieces([e, ip]), validIP) == Valid(Split(e, ','), validIP) + [ip]
  {
    OneAddress(e, ip, validIP);
    SplitWhole(ip, ',');
    assert Pieces([ip]) == [ip] + Pieces([]);
    ValidAppend(Split(e, ','), [ip], validIP);
    assert Valid([ip], validIP) == [ip];
  }

  /** An entry with a "|" cuts the record short, and the servers of before are
      not restored at all: "a|b" and "1.1.1.1" end as the VPN's own server. */
  lemma CutOffServers(lib: Lib, env: Env, a: string, b: string, ip: string)
    requires AddressText(lib.validIP) && lib.validV4("10.0.0.1") && lib.validIP("10.8.0.1") && AllGood(env)
    requires Word(a) && Word(b) && '|' !in a && ',' !in a && !lib.validIP(a) && lib.validIP(ip)
    ensures var w := Served([a + ['|'] + b, ip]);
            var o1 := AfterConnect(lib, w, Mem("", ""), "work", Some(OWN), env);
            var o2 := AfterDisconnect(lib, o1.world, Mem("", ""), "", env);
            && o1.ok && o2.ok && Valid(NameserversOf(w.dns), lib.validIP) == [ip]
            && NameserversOf(o2.world.dns) == ["10.8.0.1"]
  {
    WordPair(a, '|', b);
    ServedRun(lib, env, [a + ['|'] + b, ip]);
    BarCuts(a, b, ip, lib.validIP);
  }

  lemma BarCuts(a: string, b: string, ip: string, validIP: string -> bool)
    requires AddressText(validIP) && validIP(ip) && !validIP(a) && '|' !in a && ',' !in a
    ensures var e := a + ['|'] + b;
            Valid([e, ip], validIP) == [ip] && Valid(Pieces([e, ip]), validIP) == []
  {
    var e := a + ['|'] + b;
    assert '|' in e by {
      assert e[|a|] == '|';
    }
    assert !validIP(e);
    OneAddress(e, ip, validIP);
    SplitAppend(a, '|', b);
    SplitWhole(a, '|');
    SplitWhole(a, ',');
    assert Pieces([e, ip]) == [a];
  }

  lemma OneAddress(e: string, ip: string, validIP: string -> bool)
    requires !validIP(e) && validIP(ip)
    ensures Valid([e, ip], validIP) == [ip]
  {
    assert [e, ip] == [e] + [ip];
    ValidAppend([e], [ip], validIP);
    assert Valid([e], validIP) == [] && Valid([ip], validIP) == [ip];
  }

  // ---- runs

  /** A resolv.conf that still names the servers, and a saved field that can
      bring them back, as far as a run of commands is concerned. */
  ghost predicate Laws(lib: Lib, good: ResolvConf -> bool, recoverable: string -> bool) {
    && (forall d: ResolvConf, st: State :: st.origDns != "" && recoverable(st.origDns) ==>
          var r := RestoredDNS(lib, d, st, Written);
          good(r) && r.owned && r.immutable)
    && (forall d: ResolvConf :: good(d) ==> LastField(Snapshot(d)) != "" && recoverable(LastField(Snapshot(d))))
    && (forall d: ResolvConf, e: ResolvConf :: good(d) && e.content == d.content ==> good(e))
  }

  /** The servers are in the record's field when it has one, and in resolv.conf otherwise. */
  ghost predicate Kept(w: World, good: ResolvConf -> bool, recoverable: string -> bool) {
    if Pending(w) then recoverable(w.state.value.origDns) else good(w.dns)
  }

  predicate Pending(w: World) {
    w.state.Some? && w.state.value.origDns != ""
  }

  /** The marker, and the bit, count as set while a snapshot is waiting to be restored. */
  predicate Owned(w: World) {
    Pending(w) || w.dns.owned
  }

  predicate Locked(w: World) {
    Pending(w) || w.dns.immutable
  }

  predicate SameMarks(a: World, b: World) {
    Owned(a) == Owned(b) && Locked(a) == Locked(b)
  }

  lemma UndoneKeeps(
      lib: Lib, w: World, m: Mem, st: State, write: Write, good: ResolvConf -> bool, recoverable: string -> bool)
    requires Laws(lib, good, recoverable) && w.state == Some(st) && Kept(w, good, recoverable)
    requires Pending(w) ==> write.Written?
    ensures var u := Undone(lib, w, m, st, write);
            Kept(u, good, recoverable) && SameMarks(u, w)
  {
    assert Undone(lib, w, m, st, write).dns == RestoredDNS(lib, w.dns, st, write);
  }

  lemma StopKeeps(w: World, st: State, env: Env)
    ensures var s := StopTunnel(w, st, env);
            s.0.dns == w.dns && s.0.state == w.state && (!s.1 ==> s.0 == w) && s.1 == Stops(w.links, st, env)
  {
  }

  lemma PreviousKeeps(
      lib: Lib, w: World, m: Mem, env: Env, good: ResolvConf -> bool, recoverable: string -> bool)
    requires Laws(lib, good, recoverable) && Kept(w, good, recoverable)
    requires Pending(w) && Stops(w.links, w.state.value, env) ==> env.undoWrite.Written?
    ensures var p := Previous(lib, w, m, env).world;
            Kept(p, good, recoverable) && SameMarks(p, w)
  {
    if w.state.Some? && w.state.value.typ != "" {
      StopKeeps(w, w.state.value, env);
      if Stops(w.links, w.state.value, env) {
        UndoneKeeps(lib, StopTunnel(w, w.state.value, env).0, m, w.state.value, env.undoWrite, good, recoverable);
      }
    }
  }

  /** A disconnect of that name gets to restoring. */
  predicate Undoes(w: World, name: string, env: Env) {
    && w.state.Some? && (name == "" || w.state.value.name == "" || w.state.value.name == name)
    && Stops(w.links, w.state.value, env)
  }

  lemma DisconnectKeeps(
      lib: Lib, w: World, m: Mem, name: string, env: Env, good: ResolvConf -> bool, recoverable: string -> bool)
    requires Laws(lib, good, recoverable) && Kept(w, good, recoverable)
    requires w.state.Some? ==> w.state.value.typ != ""
    requires Pending(w) && Undoes(w, name, env) ==> env.undoWrite.Written?
    ensures var o := AfterDisconnect(lib, w, m, name, env).world;
            Kept(o, good, recoverable) && SameMarks(o, w)
  {
    if w.state.Some? {
      StopKeeps(w, w.state.value, env);
      if Undoes(w, name, env) {
        UndoneKeeps(lib, StopTunnel(w, w.state.value, env).0, m, w.state.value, env.undoWrite, good, recoverable);
      }
    }
  }

  // ---- what a command does to marker and bit, and when it loses the servers

  datatype Effect = Untouched | Marked | Unlocked | Released

  /** A bring-up: setting servers marks and locks, or, when the write fails, only
      unlocks; "dhcp" releases the file, until its snapshot is restored. */
  function UpEffect(lib: Lib, cfg: VpnConfig, env: Env, ok: bool): Effect {
    if Lifts(cfg, env) then Unlocked
    else if !ok || !TakesDNS(lib, cfg) then Untouched
    else if UsesDHCP(cfg.settings.value.dns) then if env.dnsReadable && env.writeOk then Marked else Released
    else if env.dnsWrite.Written? then Marked
    else Unlocked
  }

  function EffectOf(lib: Lib, w: World, c: Command): Effect {
    match c
    case Down(_, _, _) => Untouched
    case Up(_, cfg, env, _) =>
      if cfg.None? || !PreviousStopped(w, env) then Untouched
      else UpEffect(lib, cfg.value, env, Succeeds(w, cfg, env))
  }

  predicate PreviousStopped(w: World, env: Env) {
    w.state.Some? && w.state.value.typ != "" ==> Stops(w.links, w.state.value, env)
  }

  datatype Marks = Marks(owned: bool, immutable: bool)

  function With(m: Marks, e: Effect): Marks {
    match e
    case Untouched => m
    case Marked => Marks(true, true)
    case Unlocked => m.(immutable := false)
    case Released => Marks(false, false)
  }

  function MarksOf(w: World): Marks {
    Marks(Owned(w), Locked(w))
  }

  /** The effects of a run one after the other. */
  function MarksAfter(lib: Lib, w: World, mem: Mem, cs: seq<Command>, m: Marks): Marks
    decreases |cs|
  {
    if cs == [] then m
    else
      var o := Execute(lib, w, mem, cs[0]);
      MarksAfter(lib, o.world, o.mem, cs[1..], With(m, EffectOf(lib, w, cs[0])))
  }

  /** A bring-up after which the servers of before are neither in resolv.conf
      nor recorded. */
  predicate UpLoses(lib: Lib, cfg: VpnConfig, env: Env, ok: bool) {
    && ok && PutsServers(lib, cfg)
    && (env.dnsWrite.Torn? || (env.dnsWrite.Written? && !(env.dnsReadable && env.writeOk)))
  }

  /** The command restores without being able to write, or loses what it replaces. */
  predicate Loses(lib: Lib, w: World, c: Command) {
    match c
    case Down(name, env, _) => Pending(w) && Undoes(w, name, env) && !env.undoWrite.Written?
    case Up(_, cfg, env, _) =>
      || (Pending(w) && Stops(w.links, w.state.value, env) && !env.undoWrite.Written?)
      || (cfg.Some? && UpLoses(lib, cfg.value, env, Succeeds(w, cfg, env)))
  }

  predicate LosesIn(lib: Lib, w: World, mem: Mem, cs: seq<Command>)
    decreases |cs|
  {
    cs != [] &&
    (Loses(lib, w, cs[0])
     || (var o := Execute(lib, w, mem, cs[0]); LosesIn(lib, o.world, o.mem, cs[1..])))
  }

  lemma GoodIsReadable(lib: Lib, d: ResolvConf, env: Env, good: ResolvConf -> bool, recoverable: string -> bool)
    requires Laws(lib, good, recoverable) && good(d)
    ensures Readable(d, env) == env.dnsReadable
  {
    assert LastField("") == "";
  }

  /** What was applied, as far as the servers and the marks go. */
  ghost predicate Replaced(before: ResolvConf, after: ResolvConf, snapshot: string, e: Effect, writeOk: bool) {
    match e
    case Untouched => after == before && snapshot == ""
    case Unlocked => after == before.(immutable := false) && snapshot == ""
    case Released => after == before.(immutable := false, owned := false) && (snapshot == "" || !writeOk)
    case Marked => writeOk && snapshot == Snapshot(before)
  }

  lemma AppliedReplaces(
      lib: Lib, before: ResolvConf, after: ResolvConf, snapshot: string, cfg: VpnConfig, env: Env)
    requires cfg.typ.WireGuard? && !UpLoses(lib, cfg, env, true) && Readable(before, env) == env.dnsReadable
    requires Applied(lib, before, after, snapshot, cfg, env)
    ensures Replaced(before, after, snapshot, UpEffect(lib, cfg, env, true), env.writeOk)
  {
  }

  /** Whatever was applied, the servers are still in the file or in the field. */
  lemma AppliedKeeps(
      lib: Lib, before: ResolvConf, b: World, snapshot: string, e: Effect, env: Env, st: Option<State>,
      good: ResolvConf -> bool, recoverable: string -> bool)
    requires Laws(lib, good, recoverable) && good(before)
    requires Replaced(before, b.dns, snapshot, e, env.writeOk)
    requires if env.writeOk then st.Some? && st.value.origDns == LastField(snapshot) else st == None
    ensures var r := b.(state := st);
            && Kept(r, good, recoverable)
            && MarksOf(r) == With(Marks(before.owned, before.immutable), e)
  {
    assert LastField("") == "";
  }

  lemma RecordedKeeps(
      lib: Lib, p: World, name: string, cfg: VpnConfig, env: Env, gw: string, ifc: string,
      good: ResolvConf -> bool, recoverable: string -> bool)
    requires Tracks(lib, p, gw, ifc) && p.state == None && Laws(lib, good, recoverable) && good(p.dns)
    requires Sane(Up(name, Some(cfg), env, true), ifc)
    requires !UpLoses(lib, cfg, env, BringUp(lib, p, cfg, env).ok)
    ensures var b := BringUp(lib, p, cfg, env);
            var o := Recorded(b, name, cfg, env, p.routes);
            && Kept(o.world, good, recoverable)
            && MarksOf(o.world) == With(MarksOf(p), UpEffect(lib, cfg, env, b.ok))
  {
    BringUpTracks(lib, p, cfg, env, gw, ifc);
    BringUpApplies(lib, p, cfg, env);
    var b := BringUp(lib, p, cfg, env);
    var o := Recorded(b, name, cfg, env, p.routes);
    if b.ok && env.writeOk {
      RecordReadsBack(name, cfg, b.mem.endpointRoute, b.mem.originalDNS, gw, ifc);
    }
    if b.ok && cfg.typ.WireGuard? {
      GoodIsReadable(lib, p.dns, env, good, recoverable);
      AppliedReplaces(lib, p.dns, b.world.dns, b.mem.originalDNS, cfg, env);
      AppliedKeeps(
        lib, p.dns, b.world, b.mem.originalDNS, UpEffect(lib, cfg, env, true), env, o.world.state, good, recoverable);
    } else {
      assert LastField("") == "";
    }
  }

  /** What one connect does to the servers, the marker and the bit. */
  lemma ConnectKeeps(
      lib: Lib, w: World, m: Mem, name: string, cfg: Option<VpnConfig>, env: Env, gw: string, ifc: string,
      good: ResolvConf -> bool, recoverable: string -> bool)
    requires Tracks(lib, w, gw, ifc) && Laws(lib, good, recoverable) && Kept(w, good, recoverable)
    requires var c := Up(name, cfg, env, true); Sane(c, ifc) && !Loses(lib, w, c)
    ensures var o := AfterConnect(lib, w, m, name, cfg, env);
            && Kept(o.world, good, recoverable)
            && MarksOf(o.world) == With(MarksOf(w), EffectOf(lib, w, Up(name, cfg, env, true)))
  {
    PreviousTracks(lib, w, m, env, gw, ifc);
    PreviousKeeps(lib, w, m, env, good, recoverable);
    PreviousStops(lib, w, m, env);
    if PreviousStopped(w, env) && cfg.Some? {
      ConnectSucceedsIff(lib, w, m, name, cfg, env);
      UpIsOk(lib, w, m, name, cfg.value, env);
      RecordedKeeps(lib, Previous(lib, w, m, env).world, name, cfg.value, env, gw, ifc, good, recoverable);
    }
  }

  ghost predicate Proper(c: Command, ifc: string) {
    Sane(c, ifc) && RecordsMove(c)
  }

  lemma CommandKeeps(
      lib: Lib, w: World, mem: Mem, c: Command, gw: string, ifc: string,
      good: ResolvConf -> bool, recoverable: string -> bool)
    requires Tracks(lib, w, gw, ifc) && Laws(lib, good, recoverable) && Kept(w, good, recoverable)
    requires Proper(c, ifc) && !Loses(lib, w, c)
    ensures var o := Execute(lib, w, mem, c);
            && Tracks(lib, o.world, gw, ifc) && Kept(o.world, good, recoverable)
            && MarksOf(o.world) == With(MarksOf(w), EffectOf(lib, w, c))
  {
    var m := if c.newProcess then Mem("", "") else mem;
    if c.Up? {
      ConnectKeeps(lib, w, m, c.name, c.cfg, c.env, gw, ifc, good, recoverable);
      ConnectTracksIff(lib, w, mem, c.name, c.cfg, c.env, c.newProcess, gw, ifc);
    } else {
      DisconnectTracks(lib, w, m, c.name, c.env, gw, ifc);
      DisconnectKeeps(lib, w, m, c.name, c.env, good, recoverable);
    }
  }

  lemma {:induction false} RunsKeep(
      lib: Lib, w: World, mem: Mem, cs: seq<Command>, gw: string, ifc: string,
      good: ResolvConf -> bool, recoverable: string -> bool)
    requires Tracks(lib, w, gw, ifc) && Laws(lib, good, recoverable) && Kept(w, good, recoverable)
    requires (forall c :: c in cs ==> Proper(c, ifc)) && !LosesIn(lib, w, mem, cs)
    ensures var o := RunAll(lib, w, mem, cs).world;
            Kept(o, good, recoverable) && MarksOf(o) == MarksAfter(lib, w, mem, cs, MarksOf(w))
    decreases |cs|
  {
    if cs != [] {
      var c := cs[0];
      assert c in cs && forall x :: x in cs[1..] ==> x in cs;
      CommandKeeps(lib, w, mem, c, gw, ifc, good, recoverable);
      var o := Execute(lib, w, mem, c);
      RunsKeep(lib, o.world, o.mem, cs[1..], gw, ifc, good, recoverable);
    }
  }

  // ---- the servers themselves

  /** resolv.conf names the servers, and a record of it would keep them. */
  ghost function Names(lib: Lib, servers: seq<string>): ResolvConf -> bool {
    (d: ResolvConf) =>
      Valid(NameserversOf(d), lib.validIP) == servers == Valid(Pieces(NameserversOf(d)), lib.validIP)
  }

  ghost function Recovers(lib: Lib, servers: seq<string>): string -> bool {
    (s: string) => Valid(Split(s, ','), lib.validIP) == servers
  }

  lemma {:induction false} AddressesAreWhole(servers: seq<string>, validIP: string -> bool)
    requires AddressText(validIP) && forall s :: s in servers ==> validIP(s)
    ensures Pieces(servers) == servers
  {
    if servers != [] {
      var e, rest := servers[0], servers[1..];
      assert e in servers && forall s :: s in rest ==> s in servers;
      SplitWhole(e, ',');
      AddressesAreWhole(rest, validIP);
    }
  }

  lemma RestoreNames(lib: Lib, d: ResolvConf, st: State, servers: seq<string>)
    requires AddressText(lib.validIP) && servers != []
    requires Valid(Split(st.origDns, ','), lib.validIP) == servers
    ensures var r := RestoredDNS(lib, d, st, Written);
            Names(lib, servers)(r) && r.owned && r.immutable
  {
    RestoredServers(lib, d, st, Written);
    ValidOfValid(servers, lib.validIP);
    AddressesAreWhole(servers, lib.validIP);
  }

  lemma SnapshotRecovers(lib: Lib, dns: ResolvConf, servers: seq<string>)
    requires AddressText(lib.validIP) && servers != []
    requires Names(lib, servers)(dns)
    ensures var s := LastField(Snapshot(dns));
            s != "" && Recovers(lib, servers)(s)
  {
    SnapshotPieces(dns);
    assert Split("", ',') == [""] && Valid([""], lib.validIP) == [];
  }

  lemma ServersObeyLaws(lib: Lib, servers: seq<string>)
    requires AddressText(lib.validIP) && servers != []
    ensures Laws(lib, Names(lib, servers), Recovers(lib, servers))
  {
    var good, recoverable := Names(lib, servers), Recovers(lib, servers);
    forall d, st: State | st.origDns != "" && recoverable(st.origDns)
      ensures var r := RestoredDNS(lib, d, st, Written); good(r) && r.owned && r.immutable
    {
      RestoreNames(lib, d, st, servers);
    }
    forall d | good(d)
      ensures LastField(Snapshot(d)) != "" && recoverable(LastField(Snapshot(d)))
    {
      SnapshotRecovers(lib, d, servers);
    }
  }

  /** After any chain of connects and disconnects that leaves no VPN recorded,
      in particular one ended by a disconnect, resolv.conf names the valid
      nameservers it named before the chain, provided there was at least one,
      the first record can keep them, and no command loses them; and its marker
      and bit are what the commands' effects make of those of before. */
  lemma ChainRestoresServers(
      lib: Lib, w: World, mem: Mem, cs: seq<Command>, gw: string, ifc: string, servers: seq<string>)
    requires AddressText(lib.validIP) && Tracks(lib, w, gw, ifc) && w.state == None
    requires (forall c :: c in cs ==> Proper(c, ifc)) && !LosesIn(lib, w, mem, cs)
    requires servers != [] && Valid(NameserversOf(w.dns), lib.validIP) == servers
    requires Valid(Pieces(NameserversOf(w.dns)), lib.validIP) == servers
    requires RunAll(lib, w, mem, cs).world.state == None
    ensures var d := RunAll(lib, w, mem, cs).world.dns;
            && Valid(NameserversOf(d), lib.validIP) == servers
            && Marks(d.owned, d.immutable) == MarksAfter(lib, w, mem, cs, Marks(w.dns.owned, w.dns.immutable))
  {
    ServersObeyLaws(lib, servers);
    RunsKeep(lib, w, mem, cs, gw, ifc, Names(lib, servers), Recovers(lib, servers));
  }

  /** In particular, a chain that takes one VPN's servers and then only connects
      VPNs that leave DNS alone ends marked and immutable, whatever it was before. */
  lemma {:induction false} MarkedOnceTaken(lib: Lib, w: World, mem: Mem, cs: seq<Command>, k: nat)
    requires k < |cs| && EffectOf(lib, At(lib, w, mem, cs, k).world, cs[k]) == Marked
    requires forall i :: k < i < |cs| ==> EffectOf(lib, At(lib, w, mem, cs, i).world, cs[i]) == Untouched
    ensures forall m :: MarksAfter(lib, w, mem, cs, m) == Marks(true, true)
    decreases |cs|
  {
    var o := Execute(lib, w, mem, cs[0]);
    forall i | 0 < i < |cs|
      ensures At(lib, w, mem, cs, i) == At(lib, o.world, o.mem, cs[1..], i - 1) && cs[i] == cs[1..][i - 1]
    {
    }
    if k > 0 {
      MarkedOnceTaken(lib, o.world, o.mem, cs[1..], k - 1);
    } else {
      UntouchedStays(lib, o.world, o.mem, cs[1..], Marks(true, true));
    }
  }

  /** The host before the command of that number. */
  function At(lib: Lib, w: World, mem: Mem, cs: seq<Command>, i: nat): Outcome
    requires i <= |cs|
    decreases i
  {
    if i == 0 then Outcome(w, mem, true)
    else
      var o := Execute(lib, w, mem, cs[0]);
      At(lib, o.world, o.mem, cs[1..], i - 1)
  }

  lemma {:induction false} UntouchedStays(lib: Lib, w: World, mem: Mem, cs: seq<Command>, m: Marks)
    requires forall i :: 0 <= i < |cs| ==> EffectOf(lib, At(lib, w, mem, cs, i).world, cs[i]) == Untouched
    ensures MarksAfter(lib, w, mem, cs, m) == m
    decreases |cs|
  {
    if cs != [] {
      var o := Execute(lib, w, mem, cs[0]);
      assert At(lib, w, mem, cs, 0).world == w;
      forall i | 0 <= i < |cs[1..]|
        ensures EffectOf(lib, At(lib, o.world, o.mem, cs[1..], i).world, cs[1..][i]) == Untouched
      {
        assert At(lib, w, mem, cs, i + 1) == At(lib, o.world, o.mem, cs[1..], i);
      }
      UntouchedStays(lib, o.world, o.mem, cs[1..], m);
    }
  }
}
