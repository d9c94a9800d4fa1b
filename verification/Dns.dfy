/** The resolv.conf ownership protocol of pkg/network, together with the
    renewal rule of pkg/dhcpclient's hooks and the unlock pkg/vpn performs. */
module Dns {
  import opened Strings

  /** What an address accepted by net.ParseIP looks like. */
  ghost predicate AddressText(validIP: string -> bool) {
    && (forall s :: validIP(s) ==> s != "" && !HasSpace(s) && ',' !in s && '|' !in s)
    && !validIP("dhcp")
  }

  /** resolv.conf (None: missing), its immutable bit and net's ownership marker. */
  datatype ResolvConf = ResolvConf(content: Option<string>, immutable: bool, owned: bool)

  /** A missing file carries no inode flag. */
  predicate Plausible(d: ResolvConf) {
    d.content.None? ==> !d.immutable
  }

  const KEYWORD := "nameserver "
  const WAITING := "# Waiting for DHCP\n"
  const CLEARED := "# DNS cleared by net\n"

  // ---- reading and writing the file's text

  function ServerOf(line: string): Option<string> {
    var l := TrimSpace(line);
    if KEYWORD <= l then
      var s := TrimSpace(l[|KEYWORD|..]);
      if s != "" then Some(s) else None
    else None
  }

  function ServersIn(lines: seq<string>): seq<string> {
    if lines == [] then []
    else
      (match ServerOf(lines[0]) case Some(s) => [s] case None => []) + ServersIn(lines[1..])
  }

  /** The nameservers of a resolv.conf text, in file order. */
  function Nameservers(text: string): seq<string> {
    ServersIn(Split(text, '\n'))
  }

  function OneServer(line: string): seq<string> {
    match ServerOf(line) case Some(s) => [s] case None => []
  }

  function Flat(f: string -> seq<string>, lines: seq<string>): seq<string> {
    if lines == [] then [] else f(lines[0]) + Flat(f, lines[1..])
  }

  lemma {:induction false} FlatAppend(f: string -> seq<string>, a: seq<string>, b: seq<string>)
    ensures Flat(f, a + b) == Flat(f, a) + Flat(f, b)
  {
    if a == [] {
      assert a + b == b;
    } else {
      assert (a + b)[1..] == a[1..] + b;
      FlatAppend(f, a[1..], b);
    }
  }

  lemma {:induction false} ServersAreFlat(lines: seq<string>)
    ensures ServersIn(lines) == Flat(OneServer, lines)
  {
    if lines != [] {
      ServersAreFlat(lines[1..]);
    }
  }

  lemma ServersInAppend(a: seq<string>, b: seq<string>)
    ensures ServersIn(a + b) == ServersIn(a) + ServersIn(b)
  {
    FlatAppend(OneServer, a, b);
    ServersAreFlat(a);
    ServersAreFlat(b);
    ServersAreFlat(a + b);
  }

  lemma ServersStep(lines: seq<string>, i: nat)
    requires i < |lines|
    ensures ServersIn(lines[..i + 1]) ==
            ServersIn(lines[..i]) + if ServerOf(lines[i]).Some? then [ServerOf(lines[i]).value] else []
  {
    assert lines[..i + 1] == lines[..i] + [lines[i]];
    ServersInAppend(lines[..i], [lines[i]]);
  }

  function NameserversOf(d: ResolvConf): seq<string> {
    match d.content case Some(text) => Nameservers(text) case None => []
  }

  function Valid(servers: seq<string>, validIP: string -> bool): (out: seq<string>)
    ensures forall s :: s in out ==> s in servers && validIP(s)
  {
    if servers == [] then []
    else (if validIP(servers[0]) then [servers[0]] else []) + Valid(servers[1..], validIP)
  }

  function Line(server: string): string {
    KEYWORD + server
  }

  function Render(servers: seq<string>): string {
    if servers == [] then "" else Line(servers[0]) + ['\n'] + Render(servers[1..])
  }

  predicate Word(s: string) {
    s != "" && !HasSpace(s)
  }

  lemma {:induction false} ValidAppend(a: seq<string>, b: seq<string>, validIP: string -> bool)
    ensures Valid(a + b, validIP) == Valid(a, validIP) + Valid(b, validIP)
  {
    if a == [] {
      assert a + b == b;
    } else {
      assert (a + b)[1..] == a[1..] + b;
      ValidAppend(a[1..], b, validIP);
    }
  }

  lemma {:induction false} ValidOfValid(servers: seq<string>, validIP: string -> bool)
    requires forall s :: s in servers ==> validIP(s)
    ensures Valid(servers, validIP) == servers
  {
    if servers != [] {
      assert servers[0] in servers && forall s :: s in servers[1..] ==> s in servers;
      ValidOfValid(servers[1..], validIP);
    }
  }

  lemma {:induction false} RenderAppend(a: seq<string>, s: string)
    ensures Render(a + [s]) == Render(a) + Line(s) + ['\n']
  {
    if a == [] {
      assert a + [s] == [s];
    } else {
      assert (a + [s])[1..] == a[1..] + [s];
      RenderAppend(a[1..], s);
    }
  }

  lemma ValidStep(servers: seq<string>, i: nat, validIP: string -> bool)
    requires i < |servers|
    ensures Valid(servers[..i + 1], validIP) ==
            if validIP(servers[i]) then Valid(servers[..i], validIP) + [servers[i]] else Valid(servers[..i], validIP)
    ensures validIP(servers[i]) ==>
              Render(Valid(servers[..i + 1], validIP)) ==
              Render(Valid(servers[..i], validIP)) + (Line(servers[i]) + ['\n'])
  {
    assert servers[..i + 1] == servers[..i] + [servers[i]];
    ValidAppend(servers[..i], [servers[i]], validIP);
    if validIP(servers[i]) {
      RenderAppend(Valid(servers[..i], validIP), servers[i]);
    }
  }

  /** Reading back what SetDNS renders yields the same servers. */
  lemma {:induction false} RenderReads(servers: seq<string>)
    requires forall s :: s in servers ==> Word(s)
    ensures Nameservers(Render(servers)) == servers
  {
    if servers == [] {
      assert ServersIn([""]) == [];
    } else {
      var s := servers[0];
      assert s in servers;
      SplitAppend(Line(s), '\n', Render(servers[1..]));
      SplitWhole(Line(s), '\n');
      RenderReads(servers[1..]);
      var rest := Split(Render(servers[1..]), '\n');
      assert ([Line(s)] + rest)[1..] == rest;
    }
  }

  /** The text net's udhcpc script echoes for a lease: an optional domain line,
      then one nameserver line per server of the lease. */
  function LeaseText(domain: string, dns: seq<string>): string {
    DomainLine(domain) + ScriptLines(dns) + ['\n']
  }

  function DomainLine(domain: string): string {
    if domain != "" then "domain " + domain else ""
  }

  function ScriptLines(dns: seq<string>): string {
    if dns == [] then "" else ScriptLines(dns[..|dns| - 1]) + ['\n'] + Line(dns[|dns| - 1])
  }

  lemma {:induction false} ScriptLinesShape(dns: seq<string>)
    ensures ScriptLines(dns) + ['\n'] == ['\n'] + Render(dns)
  {
    if dns != [] {
      var a, s := dns[..|dns| - 1], dns[|dns| - 1];
      assert dns == a + [s];
      ScriptLinesShape(a);
      RenderAppend(a, s);
    }
  }

  lemma ScriptStep(dns: seq<string>, i: nat)
    requires i < |dns|
    ensures ScriptLines(dns[..i + 1]) == ScriptLines(dns[..i]) + (['\n'] + Line(dns[i]))
  {
    assert dns[..i + 1][..i] == dns[..i];
  }

  lemma DomainIsNoServer(domain: string)
    ensures ServerOf(DomainLine(domain)) == None
  {
    var first := DomainLine(domain);
    if domain != "" {
      assert first[0] == 'd';
      assert TrimLeft(first) == first;
      TrimRightShape(first);
      assert TrimSpace(first) != [] ==> TrimSpace(first)[0] == 'd';
      assert KEYWORD[0] == 'n';
    }
  }

  /** The script's file names exactly the lease's servers. */
  lemma LeaseTextReads(domain: string, dns: seq<string>)
    requires '\n' !in domain && forall s :: s in dns ==> Word(s)
    ensures Nameservers(LeaseText(domain, dns)) == dns
  {
    var first := DomainLine(domain);
    ScriptLinesShape(dns);
    assert LeaseText(domain, dns) == first + (ScriptLines(dns) + ['\n']);
    assert LeaseText(domain, dns) == first + ['\n'] + Render(dns);
    SplitAppend(first, '\n', Render(dns));
    SplitWhole(first, '\n');
    RenderReads(dns);
    DomainIsNoServer(domain);
    var rest := Split(Render(dns), '\n');
    assert ([first] + rest)[1..] == rest;
  }

  /** The script's loop over the lease's servers. */
  method BuildLeaseText(domain: string, dns: seq<string>) returns (text: string)
    ensures text == LeaseText(domain, dns)
  {
    var first := DomainLine(domain);
    var lines := "";
    for i := 0 to |dns|
      invariant lines == ScriptLines(dns[..i])
    {
      ScriptStep(dns, i);
      lines := lines + (['\n'] + Line(dns[i]));
    }
    assert dns[..|dns|] == dns;
    return first + lines + ['\n'];
  }

  /** The separate check for an active nameserver line agrees with GetDNS. */
  function HasNameserver(text: string): bool {
    exists i :: 0 <= i < |Split(text, '\n')| && KEYWORD <= TrimSpace(Split(text, '\n')[i])
  }

  lemma KeywordLineHasServer(line: string)
    ensures KEYWORD <= TrimSpace(line) <==> ServerOf(line).Some?
  {
    var l := TrimSpace(line);
    if KEYWORD <= l {
      assert IsSpace(KEYWORD[|KEYWORD| - 1]) && l[|KEYWORD| - 1] == KEYWORD[|KEYWORD| - 1];
      TrimSpaceIsTrimmed(line);
      assert Trimmed(l);
      var rest := l[|KEYWORD|..];
      assert rest != [] && !IsSpace(rest[|rest| - 1]);
      SpaceOnlyTrims(rest);
    }
  }

  lemma {:induction false} SpaceOnlyTrims(s: string)
    requires s != [] && !IsSpace(s[|s| - 1])
    ensures TrimSpace(s) != []
  {
    if IsSpace(s[0]) {
      SpaceOnlyTrims(s[1..]);
    }
  }

  lemma {:induction false} ServersInNonEmpty(lines: seq<string>)
    ensures ServersIn(lines) != [] <==> exists i :: 0 <= i < |lines| && KEYWORD <= TrimSpace(lines[i])
  {
    if lines != [] {
      KeywordLineHasServer(lines[0]);
      ServersInNonEmpty(lines[1..]);
      if ServersIn(lines[1..]) != [] {
        var i :| 0 <= i < |lines[1..]| && KEYWORD <= TrimSpace(lines[1..][i]);
        assert KEYWORD <= TrimSpace(lines[i + 1]);
      }
      if i :| 0 < i < |lines| && KEYWORD <= TrimSpace(lines[i]) {
        assert lines[1..][i - 1] == lines[i];
      }
    }
  }

  lemma HasNameserverAgreesWithGetDNS(text: string)
    ensures HasNameserver(text) <==> Nameservers(text) != []
  {
    ServersInNonEmpty(Split(text, '\n'));
  }

  // ---- the operations

  predicate UsesDHCP(servers: seq<string>) {
    servers == [] || servers == ["dhcp"]
  }

  /** How writing the file turns out: the rename replaces all of it or nothing,
      the fallback in place may stop halfway. */
  datatype Write = Written | Refused | Torn(left: string)

  /** The file after the immutable bit was lifted and the text written. */
  function Rewritten(d: ResolvConf, text: string, write: Write): ResolvConf {
    var content := match write case Written => Some(text) case Refused => d.content case Torn(left) => Some(left);
    d.(content := content, immutable := false)
  }

  /** SetDNS: the new state and whether it succeeded. */
  function AfterSetDNS(d: ResolvConf, servers: seq<string>, validIP: string -> bool, write: Write): (ResolvConf, bool) {
    if UsesDHCP(servers) then (d.(immutable := false, owned := false), true)
    else if Valid(servers, validIP) == [] then (d, false)
    else
      var r := Rewritten(d, Render(Valid(servers, validIP)), write);
      if write.Written? then (r.(immutable := true, owned := true), true) else (r, false)
  }

  function AfterLock(d: ResolvConf): ResolvConf {
    d.(immutable := d.content.Some?, owned := true)
  }

  /** A failed write leaves the marker, but not the immutable bit. */
  function AfterClear(d: ResolvConf, write: Write): ResolvConf {
    if d.owned then Rewritten(d, CLEARED, write).(owned := !write.Written?) else d
  }

  function AfterConnectStart(d: ResolvConf, servers: seq<string>, write: Write): ResolvConf {
    if UsesDHCP(servers) then Rewritten(d, WAITING, write).(owned := false) else d
  }

  function AfterConnectEnd(
      d: ResolvConf, servers: seq<string>, validIP: string -> bool, readOk: bool, write: Write): ResolvConf
  {
    if !UsesDHCP(servers) then AfterSetDNS(d, servers, validIP, write).0
    else if d.content.Some? && readOk && HasNameserver(d.content.value) then AfterLock(d)
    else d
  }

  /** Everything that can happen to resolv.conf, each step complete. Connecting
      is two steps, since leases and other writers act while the link comes up. */
  datatype Event =
    | SetDNS(servers: seq<string>, write: Write)
    | ClearDNS(write: Write)
    | LockDNS
    | UnlockDNS
    | DHCPRenew
    | ConnectStart(servers: seq<string>, write: Write)
    | ConnectEnd(servers: seq<string>, readOk: bool, write: Write)
    | VpnUnlock
    | Lease(text: string)
    | OutsideWrite(result: Option<string>)

  function Step(d: ResolvConf, e: Event, validIP: string -> bool): ResolvConf {
    match e
    case SetDNS(servers, write) => AfterSetDNS(d, servers, validIP, write).0
    case ClearDNS(write) => AfterClear(d, write)
    case LockDNS => AfterLock(d)
    case UnlockDNS => d.(immutable := false, owned := false)
    case DHCPRenew => d.(immutable := false, owned := false)
    case ConnectStart(servers, write) => AfterConnectStart(d, servers, write)
    case ConnectEnd(servers, readOk, write) => AfterConnectEnd(d, servers, validIP, readOk, write)
    case VpnUnlock => d.(immutable := false)
    case Lease(text) => if d.owned || d.immutable then d else d.(content := Some(text))
    case OutsideWrite(result) => if d.immutable then d else d.(content := result)
  }

  function Run(d: ResolvConf, events: seq<Event>, validIP: string -> bool): ResolvConf
    decreases |events|
  {
    if events == [] then d else Run(Step(d, events[0], validIP), events[1..], validIP)
  }

  // ---- what holds over every run

  /** An immutable resolv.conf is always marked as owned. */
  ghost predicate LockedIsOwned(d: ResolvConf) {
    Plausible(d) && (d.immutable ==> d.owned)
  }

  lemma {:induction false} LockedIsOwnedAlways(d: ResolvConf, events: seq<Event>, validIP: string -> bool)
    requires LockedIsOwned(d)
    ensures LockedIsOwned(Run(d, events, validIP))
    decreases |events|
  {
    if events != [] {
      LockedIsOwnedAlways(Step(d, events[0], validIP), events[1..], validIP);
    }
  }

  /** Only the plain-SSID connect locks without looking; without it a locked
      file always names a server, so nobody is stranded behind an immutable
      file with no nameserver. */
  ghost predicate LockedHasServer(d: ResolvConf) {
    LockedIsOwned(d) && (d.immutable ==> NameserversOf(d) != [])
  }

  lemma {:induction false} LockedHasServerAlways(d: ResolvConf, events: seq<Event>, validIP: string -> bool)
    requires AddressText(validIP)
    requires LockedHasServer(d) && LockDNS !in events
    ensures LockedHasServer(Run(d, events, validIP))
    decreases |events|
  {
    if events != [] {
      assert events[0] in events;
      LockedHasServerStep(d, events[0], validIP);
      LockedHasServerAlways(Step(d, events[0], validIP), events[1..], validIP);
    }
  }

  lemma LockedHasServerStep(d: ResolvConf, e: Event, validIP: string -> bool)
    requires AddressText(validIP)
    requires LockedHasServer(d) && e != LockDNS
    ensures LockedHasServer(Step(d, e, validIP))
  {
    if e.SetDNS? || e.ConnectEnd? {
      SetDNSReads(d, e.servers, validIP, e.write);
      if d.content.Some? {
        HasNameserverAgreesWithGetDNS(d.content.value);
      }
    }
  }

  /** A locked file does not change, and a marked one only changes by net's own
      operations or by an outside writer after the bit was lifted: the renewal
      hooks never touch it. */
  lemma WhoMayWrite(d: ResolvConf, e: Event, validIP: string -> bool)
    requires e.VpnUnlock? || e.Lease? || e.OutsideWrite?
    requires Step(d, e, validIP).content != d.content
    ensures !d.immutable
    ensures d.owned ==> e.OutsideWrite?
    ensures e.Lease? ==> Step(d, e, validIP).content == Some(e.text)
  {
  }

  /** While the marker exists, no number of renewals changes the file, even
      after a VPN lifted the immutable bit; and outside writers cannot either
      for as long as the bit is on. */
  predicate Harmless(locked: bool, events: seq<Event>) {
    if events == [] then true
    else match events[0]
      case VpnUnlock => Harmless(false, events[1..])
      case Lease(_) => Harmless(locked, events[1..])
      case OutsideWrite(_) => locked && Harmless(locked, events[1..])
      case _ => false
  }

  lemma {:induction false} OwnedFileSurvives(d: ResolvConf, events: seq<Event>, validIP: string -> bool)
    requires d.owned && Harmless(d.immutable, events)
    ensures Run(d, events, validIP).content == d.content && Run(d, events, validIP).owned
    decreases |events|
  {
    if events != [] {
      OwnedFileSurvives(Step(d, events[0], validIP), events[1..], validIP);
    }
  }

  /** SetDNS either hands DNS to DHCP, or leaves exactly the valid servers, in
      order, or fails: exactly when no server is an address, which changes
      nothing, or the write fails, which unlocks the file and claims nothing. */
  lemma SetDNSReads(d: ResolvConf, servers: seq<string>, validIP: string -> bool, write: Write)
    requires AddressText(validIP)
    ensures var (r, ok) := AfterSetDNS(d, servers, validIP, write);
            && (ok <==> UsesDHCP(servers) || (write.Written? && exists s :: s in servers && validIP(s)))
            && (!ok && Valid(servers, validIP) == [] ==> r == d)
            && (!ok && Valid(servers, validIP) != [] ==> !r.immutable && r.owned == d.owned)
            && (!ok && Valid(servers, validIP) != [] ==>
                  (write.Refused? && r.content == d.content) || (write.Torn? && r.content == Some(write.left)))
            && (ok && !UsesDHCP(servers) ==> NameserversOf(r) == Valid(servers, validIP) && r.immutable && r.owned)
  {
    ValidNonEmpty(servers, validIP);
    RenderReads(Valid(servers, validIP));
  }

  lemma {:induction false} ValidNonEmpty(servers: seq<string>, validIP: string -> bool)
    ensures Valid(servers, validIP) != [] <==> exists s :: s in servers && validIP(s)
  {
    if servers != [] {
      ValidNonEmpty(servers[1..], validIP);
      assert servers[0] in servers && forall s :: s in servers[1..] ==> s in servers;
    }
  }

  /** Custom servers stay in force: after a successful SetDNS, GetDNS keeps
      returning exactly the valid ones through any renewals, VPN unlocks and
      outside writers acting on the locked file. */
  lemma CustomServersStay(
      d: ResolvConf, servers: seq<string>, write: Write, events: seq<Event>, validIP: string -> bool)
    requires AddressText(validIP)
    requires !UsesDHCP(servers) && AfterSetDNS(d, servers, validIP, write).1
    requires Harmless(true, events)
    ensures NameserversOf(Run(d, [SetDNS(servers, write)] + events, validIP)) == Valid(servers, validIP)
  {
    SetDNSReads(d, servers, validIP, write);
    var after := Step(d, SetDNS(servers, write), validIP);
    assert ([SetDNS(servers, write)] + events)[1..] == events;
    OwnedFileSurvives(after, events, validIP);
  }

  // ---- what each operation leaves, in the file's own terms

  /** The line a name server is read from, and written as. */
  lemma ServerLine(s: string)
    requires Word(s)
    ensures Render([s]) == "nameserver " + s + "\n" && Nameservers(Render([s])) == [s]
  {
    RenderReads([s]);
    RenderOne(s);
  }

  lemma RenderOne(s: string)
    ensures Render([s]) == "nameserver " + s + "\n"
  {
    assert Render([s]) == Line(s) + ['\n'] + Render([]);
  }

  /** A server that is commented out is none. */
  lemma CommentedServer(s: string)
    requires Word(s)
    ensures Nameservers("#" + ("nameserver " + s) + "\n") == []
  {
    var text := "nameserver " + s;
    assert forall i :: 0 <= i < |s| ==> !IsSpace(s[i]);
    assert text[|text| - 1] == s[|s| - 1];
    CommentIsNoServer(text);
  }

  /** A comment names no server. */
  lemma CommentIsNoServer(text: string)
    requires '\n' !in text && (text != "" ==> !IsSpace(text[|text| - 1]))
    ensures Nameservers("#" + text + "\n") == []
  {
    var line := "#" + text;
    assert line[0] == '#' && Trimmed(line);
    TrimmedIsFixed(line);
    assert '\n' !in line;
    assert "#" + text + "\n" == line + ['\n'] + "";
    SplitAppend(line, '\n', "");
    SplitWhole(line, '\n');
    assert Split(line + ['\n'] + "", '\n') == [line, ""];
    assert KEYWORD[0] == 'n';
    assert ServerOf(line) == None && ServerOf("") == None;
    assert [line, ""][1..] == [""];
    assert ServersIn([""]) == [];
  }

  lemma ClearedNamesNone()
    ensures CLEARED == "# DNS cleared by net\n" && Nameservers(CLEARED) == []
  {
    CommentText(CLEARED, 't');
  }

  lemma WaitingNamesNone()
    ensures WAITING == "# Waiting for DHCP\n" && Nameservers(WAITING) == []
  {
    CommentText(WAITING, 'P');
  }

  /** One comment line, and nothing else. */
  lemma CommentText(s: string, last: char)
    requires |s| > 2 && s[0] == '#' && s[|s| - 1] == '\n' && s[|s| - 2] == last && !IsSpace(last)
    requires forall i :: 0 <= i < |s| - 1 ==> s[i] != '\n'
    ensures Nameservers(s) == []
  {
    var text := s[1..|s| - 1];
    assert forall i :: 0 <= i < |text| ==> text[i] == s[i + 1];
    assert text[|text| - 1] == last;
    CommentIsNoServer(text);
    assert s == "#" + text + "\n";
  }

  /** Clearing an owned file leaves a comment that names no server, unlocked and
      unmarked; when the write fails the marker stays, without the bit, on what
      was there or what the write got to. A file of others is left alone. */
  lemma ClearMeans(d: ResolvConf, write: Write, validIP: string -> bool)
    ensures var r := Step(d, ClearDNS(write), validIP);
            && (!d.owned ==> r == d)
            && (d.owned && write.Written? ==>
                  r.content == Some(CLEARED) && NameserversOf(r) == [] && !r.immutable && !r.owned)
            && (d.owned && write.Refused? ==> r.content == d.content && !r.immutable && r.owned)
            && (d.owned && write.Torn? ==> r.content == Some(write.left) && !r.immutable && r.owned)
  {
    ClearedNamesNone();
    RewrittenReads(d, CLEARED, write);
  }

  /** Locking and unlocking never touch the text; a missing file can be marked, not locked. */
  lemma LockMeans(d: ResolvConf, validIP: string -> bool)
    ensures var r := Step(d, LockDNS, validIP);
            r.content == d.content && r.owned && (r.immutable <==> d.content.Some?)
    ensures var r := Step(d, UnlockDNS, validIP); r.content == d.content && !r.owned && !r.immutable
    ensures var r := Step(d, VpnUnlock, validIP); r.content == d.content && r.owned == d.owned && !r.immutable
    ensures var r := Step(d, DHCPRenew, validIP); r.content == d.content && !r.owned && !r.immutable
  {
  }

  /** Handing DNS to DHCP by setting no servers, or "dhcp". */
  lemma DhcpMeans(d: ResolvConf, servers: seq<string>, write: Write, validIP: string -> bool)
    requires servers == [] || servers == ["dhcp"]
    ensures AfterSetDNS(d, servers, validIP, write) == (ResolvConf(d.content, false, false), true)
    ensures AfterConnectStart(d, servers, write) == Rewritten(d, WAITING, write).(owned := false)
  {
  }

  /** Connecting with DHCP DNS first puts a comment that names no server. */
  lemma StartMeans(d: ResolvConf, servers: seq<string>, write: Write)
    requires UsesDHCP(servers)
    ensures var r := AfterConnectStart(d, servers, write);
            && !r.owned && !r.immutable
            && (write.Written? ==> r.content == Some(WAITING) && NameserversOf(r) == [])
            && (write.Refused? ==> r.content == d.content)
  {
    WaitingNamesNone();
    RewrittenReads(d, WAITING, write);
    SameText(Rewritten(d, WAITING, write), AfterConnectStart(d, servers, write));
  }

  lemma SameText(a: ResolvConf, b: ResolvConf)
    requires a.content == b.content
    ensures NameserversOf(a) == NameserversOf(b)
  {
  }

  lemma RewrittenReads(d: ResolvConf, text: string, write: Write)
    ensures write.Written? ==> NameserversOf(Rewritten(d, text, write)) == Nameservers(text)
  {
  }

  /** With servers of its own a connect leaves the file alone until the link is up. */
  lemma CustomStartMeans(d: ResolvConf, servers: seq<string>, write: Write, validIP: string -> bool)
    requires servers != [] && servers != ["dhcp"]
    ensures Step(d, ConnectStart(servers, write), validIP) == d
  {
  }

  /** The link is up: a file that names a server, if it can be read, is locked
      and marked; any other is left as it is. */
  lemma DhcpEndMeans(d: ResolvConf, servers: seq<string>, readOk: bool, write: Write, validIP: string -> bool)
    requires servers == [] || servers == ["dhcp"]
    ensures Step(d, ConnectEnd(servers, readOk, write), validIP)
         == if readOk && NameserversOf(d) != [] then ResolvConf(d.content, true, true) else d
  {
    if d.content.Some? {
      HasNameserverAgreesWithGetDNS(d.content.value);
    }
  }

  /** Servers of its own are put in force. */
  lemma CustomEndMeans(d: ResolvConf, servers: seq<string>, readOk: bool, write: Write, validIP: string -> bool)
    requires AddressText(validIP) && servers != [] && servers != ["dhcp"]
    requires write.Written? && exists s :: s in servers && validIP(s)
    ensures var r := Step(d, ConnectEnd(servers, readOk, write), validIP);
            NameserversOf(r) == Valid(servers, validIP) && r.immutable && r.owned
  {
    CustomEndSets(d, servers, readOk, write, validIP);
    SetDNSReads(d, servers, validIP, write);
    var (r, ok) := AfterSetDNS(d, servers, validIP, write);
    assert ok;
    SameText(r, Step(d, ConnectEnd(servers, readOk, write), validIP));
  }

  lemma CustomEndSets(d: ResolvConf, servers: seq<string>, readOk: bool, write: Write, validIP: string -> bool)
    requires servers != [] && servers != ["dhcp"]
    ensures !UsesDHCP(servers)
    ensures Step(d, ConnectEnd(servers, readOk, write), validIP) == AfterSetDNS(d, servers, validIP, write).0
  {
    assert |servers| == 1 && servers[0] == "dhcp" ==> servers == ["dhcp"];
  }

  lemma {:induction false} RunAppend(d: ResolvConf, a: seq<Event>, b: seq<Event>, validIP: string -> bool)
    ensures Run(d, a + b, validIP) == Run(Run(d, a, validIP), b, validIP)
    decreases |a|
  {
    if a == [] {
      assert a + b == b;
    } else {
      assert (a + b)[0] == a[0] && (a + b)[1..] == a[1..] + b;
      RunAppend(Step(d, a[0], validIP), a[1..], b, validIP);
    }
  }

  /** A renewal that the user asks for takes the lease, whatever held the file before. */
  lemma RenewTakesTheLease(d: ResolvConf, lease: string, validIP: string -> bool)
    ensures Run(d, [DHCPRenew, Lease(lease)], validIP) == ResolvConf(Some(lease), false, false)
  {
    assert [DHCPRenew, Lease(lease)][1..] == [Lease(lease)] && [Lease(lease)][1..] == [];
    var d1 := Step(d, DHCPRenew, validIP);
    assert Run(d1, [Lease(lease)], validIP) == Run(Step(d1, Lease(lease), validIP), [], validIP);
  }

  /** The text of a lease with one server. */
  lemma LeaseLines(domain: string, server: string)
    ensures LeaseText(domain, [server])
         == (if domain == "" then "" else "domain " + domain) + "\nnameserver " + server + "\n"
  {
    assert ScriptLines([server]) == ['\n'] + Line(server) + ScriptLines([]);
  }

  /** Connecting with DHCP DNS: the lease that arrives while connecting is what
      stays, however the file was owned or locked before and whether or not the
      placeholder could be written. */
  lemma ConnectTakesTheLease(
      d: ResolvConf, servers: seq<string>, first: Write, lease: string, last: Write, later: seq<Event>,
      validIP: string -> bool)
    requires UsesDHCP(servers) && Nameservers(lease) != []
    requires Harmless(true, later)
    ensures var connect := [ConnectStart(servers, first), Lease(lease), ConnectEnd(servers, true, last)];
            var r := Run(d, connect + later, validIP);
            NameserversOf(r) == Nameservers(lease) && r.owned
  {
    HasNameserverAgreesWithGetDNS(lease);
    var e := [ConnectStart(servers, first), Lease(lease), ConnectEnd(servers, true, last)] + later;
    var d1 := Step(d, e[0], validIP);
    var d2 := Step(d1, e[1], validIP);
    var d3 := Step(d2, e[2], validIP);
    assert e[1..][1..][1..] == later;
    assert Run(d, e, validIP) == Run(d1, e[1..], validIP) == Run(d2, e[1..][1..], validIP) == Run(d3, later, validIP);
    OwnedFileSurvives(d3, later, validIP);
  }

  // ---- the manager

  /** pkg/network's Manager as far as resolv.conf goes; the immutable ioctl and
      the marker file's writes succeed. */
  class Resolver {
    var content: Option<string>
    var immutable: bool
    var owned: bool
    const validIP: string -> bool

    function State(): ResolvConf
      reads this
    {
      ResolvConf(content, immutable, owned)
    }

    constructor (d: ResolvConf, validIP: string -> bool)
      ensures State() == d && this.validIP == validIP
    {
      content, immutable, owned := d.content, d.immutable, d.owned;
      this.validIP := validIP;
    }

    /** system.SetImmutable: opening a missing file fails, and nothing changes. */
    method SetImmutable(on: bool) returns (ok: bool)
      modifies this`immutable
      ensures ok == content.Some?
      ensures immutable == if ok then on else old(immutable)
    {
      if content.None? {
        return false;
      }
      immutable := on;
      return true;
    }

    method WriteFile(text: string, write: Write) returns (ok: bool)
      modifies this`content
      ensures ok == (!immutable && write.Written?)
      ensures content == if immutable then old(content) else Rewritten(old(State()), text, write).content
    {
      if immutable {
        return false;
      }
      match write {
        case Written => content := Some(text);
        case Refused =>
        case Torn(left) => content := Some(left);
      }
      return write.Written?;
    }

    /** SetDNS's loop: one line per valid server, and how many there are. */
    method RenderValid(servers: seq<string>) returns (text: string, validCount: nat)
      ensures text == Render(Valid(servers, validIP)) && validCount == |Valid(servers, validIP)|
    {
      text, validCount := "", 0;
      for i := 0 to |servers|
        invariant text == Render(Valid(servers[..i], validIP))
        invariant validCount == |Valid(servers[..i], validIP)|
      {
        ValidStep(servers, i, validIP);
        if validIP(servers[i]) {
          text := text + (Line(servers[i]) + ['\n']);
          validCount := validCount + 1;
        }
      }
      assert servers[..|servers|] == servers;
    }

    method SetDNS(servers: seq<string>, write: Write) returns (ok: bool)
      requires Plausible(State())
      modifies this
      ensures (State(), ok) == AfterSetDNS(old(State()), servers, validIP, write)
    {
      if |servers| == 0 || (|servers| == 1 && servers[0] == "dhcp") {
        var _ := SetImmutable(false);
        owned := false;
        return true;
      }
      var text, validCount := RenderValid(servers);
      if validCount == 0 {
        return false;
      }
      var _ := SetImmutable(false);
      ok := WriteFile(text, write);
      if !ok {
        return false;
      }
      var _ := SetImmutable(true);
      owned := true;
      return true;
    }

    method ClearDNS(write: Write) returns (cleared: bool)
      requires Plausible(State())
      modifies this
      ensures State() == AfterClear(old(State()), write) && cleared == (old(owned) && write.Written?)
      ensures cleared ==> content == Some(CLEARED) && !immutable && !owned
    {
      if !owned {
        return false;
      }
      var _ := SetImmutable(false);
      var ok := WriteFile(CLEARED, write);
      if !ok {
        return false;
      }
      owned := false;
      return true;
    }

    method LockDNS()
      requires Plausible(State())
      modifies this
      ensures State() == AfterLock(old(State()))
    {
      var _ := SetImmutable(true);
      owned := true;
    }

    method UnlockDNS()
      requires Plausible(State())
      modifies this
      ensures State() == old(State()).(immutable := false, owned := false)
    {
      owned := false;
      var _ := SetImmutable(false);
    }

    /** DHCPRenew up to the renewal itself, which then acts through the hooks. */
    method ReleaseForRenew()
      requires Plausible(State())
      modifies this
      ensures State() == Step(old(State()), DHCPRenew, validIP)
    {
      var _ := SetImmutable(false);
      owned := false;
    }

    /** pkg/vpn's unlock for a VPN that manages DNS itself: the marker stays. */
    method UnlockForVPN()
      requires Plausible(State())
      modifies this
      ensures State() == Step(old(State()), VpnUnlock, validIP)
    {
      var _ := SetImmutable(false);
    }

    /** None is a read error; a missing file names no servers. */
    method GetDNS(readOk: bool) returns (r: Option<seq<string>>)
      ensures r == if content.Some? && !readOk then None else Some(NameserversOf(State()))
    {
      if content.None? {
        return Some([]);
      }
      if !readOk {
        return None;
      }
      var lines := Split(content.value, '\n');
      var servers := [];
      for i := 0 to |lines|
        invariant servers == ServersIn(lines[..i])
      {
        ServersStep(lines, i);
        var line := TrimSpace(lines[i]);
        if HasPrefix(line, KEYWORD) {
          var server := TrimSpace(line[|KEYWORD|..]);
          if server != "" {
            servers := servers + [server];
          }
        }
      }
      assert lines[..|lines|] == lines;
      r := Some(servers);
    }

    method ResolvConfHasNameserver(readOk: bool) returns (found: bool)
      ensures found == (content.Some? && readOk && HasNameserver(content.value))
    {
      if content.None? || !readOk {
        return false;
      }
      var lines := Split(content.value, '\n');
      for i := 0 to |lines|
        invariant forall k :: 0 <= k < i ==> !(KEYWORD <= TrimSpace(lines[k]))
      {
        if HasPrefix(TrimSpace(lines[i]), KEYWORD) {
          return true;
        }
      }
      return false;
    }

    /** The DNS part of ConnectToConfiguredNetwork before the link comes up. */
    method PrepareConnect(servers: seq<string>, write: Write)
      requires Plausible(State())
      modifies this
      ensures State() == AfterConnectStart(old(State()), servers, write)
    {
      if |servers| == 0 || (|servers| == 1 && servers[0] == "dhcp") {
        var _ := SetImmutable(false);
        var _ := WriteFile(WAITING, write);
        owned := false;
      }
    }

    /** Its DNS part once the link is up. */
    method FinishConnect(servers: seq<string>, readOk: bool, write: Write)
      requires Plausible(State())
      modifies this
      ensures State() == AfterConnectEnd(old(State()), servers, validIP, readOk, write)
    {
      var useDHCP := |servers| == 0 || (|servers| == 1 && servers[0] == "dhcp");
      if |servers| > 0 && !useDHCP {
        var _ := SetDNS(servers, write);
      }
      if useDHCP {
        var found := ResolvConfHasNameserver(readOk);
        if found {
          LockDNS();
        }
      }
    }

    /** The bound/renew branch of net's udhcpc script. */
    method UdhcpcRenew(domain: string, dns: seq<string>)
      modifies this`content
      ensures State() == Step(old(State()), Lease(LeaseText(domain, dns)), validIP)
    {
      if !owned {
        var text := BuildLeaseText(domain, dns);
        var _ := WriteFile(text, Written);
      }
    }
  }
}
