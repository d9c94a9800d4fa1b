/** VPN entries of one daemon: the load-time validator of pkg/config and the
    status listing of pkg/vpn that depends on it. */
module DaemonProfiles {
  import opened Strings

  /** A raw value of the config file: missing, a string, or something else that
      the decoder may still turn into text. */
  datatype Raw = Absent | Str(s: string) | Other(decoded: string)

  datatype RawEntry = Mapping(typ: Raw, profile: Raw, iface: string) | NotMapping

  datatype VPNConfig = VPNConfig(typ: string, profile: string, iface: string)

  type RawMap = map<string, RawEntry>
  type VPNMap = map<string, VPNConfig>

  function Text(r: Raw): string {
    match r case Absent => "" case Str(s) => s case Other(d) => d
  }

  /** What the rest of the program sees of an entry. */
  function Decoded(e: RawEntry): VPNConfig {
    match e
    case Mapping(typ, profile, iface) => VPNConfig(Text(typ), Text(profile), iface)
    case NotMapping => VPNConfig("", "", "")
  }

  function DecodedMap(raw: RawMap): (m: VPNMap)
    ensures m.Keys == raw.Keys
  {
    map name | name in raw :: Decoded(raw[name])
  }

  const NETBIRD := "netbird"
  const TAILSCALE := "tailscale"
  const OPENVPN := "openvpn"
  const WIREGUARD := "wireguard"

  /** Types backed by a single daemon with one active account. */
  const DAEMON_TYPES := {NETBIRD, TAILSCALE}

  // ---- the validator

  /** e is an entry of daemon type t, as the validator sees it. */
  predicate HasType(e: RawEntry, t: string) {
    e.Mapping? && e.typ == Str(t)
  }

  function Names(raw: RawMap, t: string): set<string> {
    set n | n in raw && HasType(raw[n], t)
  }

  /** The trimmed profile a name selects, "" when it selects none. */
  function ProfileOf(raw: RawMap, name: string): string {
    if name in raw && raw[name].Mapping? && raw[name].profile.Str? then TrimSpace(raw[name].profile.s) else ""
  }

  /** Each daemon type with two or more entries has non-blank, pairwise
      distinct trimmed profiles. */
  predicate TypeDistinct(raw: RawMap, t: string) {
    |Names(raw, t)| >= 2 ==>
      && (forall n :: n in Names(raw, t) ==> ProfileOf(raw, n) != "")
      && (forall n, m :: n in Names(raw, t) && m in Names(raw, t) && n != m ==> ProfileOf(raw, n) != ProfileOf(raw, m))
  }

  predicate ProfilesDistinct(raw: RawMap) {
    forall t :: t in DAEMON_TYPES ==> TypeDistinct(raw, t)
  }

  predicate Daemon(e: RawEntry) {
    e.Mapping? && (e.typ == Str("netbird") || e.typ == Str("tailscale"))
  }

  predicate SameDaemon(raw: RawMap, n: string, m: string) {
    n in raw && m in raw && n != m && Daemon(raw[n]) && Daemon(raw[m]) && raw[n].typ == raw[m].typ
  }

  /** Both name a profile, and not the same one. */
  predicate Apart(e: RawEntry, f: RawEntry)
    requires e.Mapping? && f.Mapping?
  {
    && e.profile.Str? && f.profile.Str? && TrimSpace(e.profile.s) != TrimSpace(f.profile.s)
    && TrimSpace(e.profile.s) != "" && TrimSpace(f.profile.s) != ""
  }

  lemma DistinctApart(raw: RawMap, n: string, m: string)
    requires ProfilesDistinct(raw) && SameDaemon(raw, n, m)
    ensures Apart(raw[n], raw[m])
  {
    var t := raw[n].typ.s;
    assert {n, m} <= Names(raw, t) && |{n, m}| == 2;
    AtLeast({n, m}, Names(raw, t));
    assert t in DAEMON_TYPES;
    assert TrimSpace("") == "";
  }

  lemma ApartDistinct(raw: RawMap, t: string)
    requires forall n, m :: SameDaemon(raw, n, m) ==> Apart(raw[n], raw[m])
    requires t in DAEMON_TYPES
    ensures TypeDistinct(raw, t)
  {
    var names := Names(raw, t);
    forall n, m | n in names && m in names && n != m
      ensures ProfileOf(raw, n) != "" && ProfileOf(raw, n) != ProfileOf(raw, m)
    {
      assert SameDaemon(raw, n, m);
    }
    forall n | n in names && |names| >= 2
      ensures ProfileOf(raw, n) != ""
    {
      var rest := names - {n};
      assert |rest| == |names| - 1;
      var m :| m in rest;
    }
  }

  /** The rule, pair by pair: two NetBird entries, or two Tailscale entries,
      are told apart by their profiles. */
  lemma DistinctMeans(raw: RawMap)
    ensures ProfilesDistinct(raw) <==> forall n, m :: SameDaemon(raw, n, m) ==> Apart(raw[n], raw[m])
  {
    if ProfilesDistinct(raw) {
      forall n, m | SameDaemon(raw, n, m)
        ensures Apart(raw[n], raw[m])
      {
        DistinctApart(raw, n, m);
      }
    }
    if forall n, m :: SameDaemon(raw, n, m) ==> Apart(raw[n], raw[m]) {
      forall t | t in DAEMON_TYPES
        ensures TypeDistinct(raw, t)
      {
        ApartDistinct(raw, t);
      }
    }
  }

  lemma AtLeast(part: set<string>, all: set<string>)
    requires part <= all
    ensures |part| <= |all|
  {
    assert all == part + (all - part);
  }

  datatype ProfileError =
    | MissingProfile(typ: string, names: seq<string>, missing: seq<string>)
    | SharedProfile(typ: string, prev: string, name: string, profile: string)

  predicate Ascending(names: seq<string>) {
    forall i, j :: 0 <= i < j < |names| ==> !Less(names[j], names[i])
  }

  /** The error describes the configuration. */
  ghost predicate Accurate(raw: RawMap, e: ProfileError) {
    match e
    case MissingProfile(t, names, missing) =>
      && |names| >= 2 && Ascending(names) && (forall n :: n in names <==> n in Names(raw, t))
      && missing != [] && (forall n :: n in missing <==> n in Names(raw, t) && ProfileOf(raw, n) == "")
    case SharedProfile(t, prev, name, profile) =>
      && prev != name && prev in Names(raw, t) && name in Names(raw, t)
      && profile != "" && ProfileOf(raw, prev) == profile == ProfileOf(raw, name)
  }

  function Insert(x: string, sorted: seq<string>): (out: seq<string>)
    ensures multiset(out) == multiset(sorted) + multiset{x}
  {
    if sorted == [] || Less(x, sorted[0]) then [x] + sorted
    else
      assert sorted == [sorted[0]] + sorted[1..];
      [sorted[0]] + Insert(x, sorted[1..])
  }

  /** sort.Strings */
  function Sorted(names: seq<string>): (out: seq<string>)
    ensures multiset(out) == multiset(names)
  {
    if names == [] then []
    else
      assert names == [names[0]] + names[1..];
      Insert(names[0], Sorted(names[1..]))
  }

  /** The errors name entries in alphabetical order. */
  lemma {:induction false} SortedAscends(names: seq<string>)
    ensures Ascending(Sorted(names))
  {
    if names != [] {
      SortedAscends(names[1..]);
      InsertAscends(names[0], Sorted(names[1..]));
    }
  }

  lemma {:induction false} InsertAscends(x: string, sorted: seq<string>)
    requires Ascending(sorted)
    ensures Ascending(Insert(x, sorted))
  {
    if sorted == [] {
    } else if Less(x, sorted[0]) {
      LessIrreflexive(sorted[0]);
      forall i | 0 <= i < |sorted|
        ensures !Less(sorted[i], x)
      {
        StaysBehind(x, sorted[0], sorted[i]);
      }
    } else {
      var rest := Insert(x, sorted[1..]);
      InsertAscends(x, sorted[1..]);
      forall i | 0 <= i < |rest|
        ensures !Less(rest[i], sorted[0])
      {
        assert rest[i] in multiset(rest);
        assert rest[i] == x || rest[i] in sorted[1..];
      }
    }
  }

  lemma StaysBehind(x: string, first: string, y: string)
    requires Less(x, first) && !Less(y, first)
    ensures !Less(y, x)
  {
    if Less(y, x) {
      LessTransitive(y, x, first);
    }
  }

  predicate NoDuplicates(names: seq<string>) {
    forall i, j :: 0 <= i < j < |names| ==> names[i] != names[j]
  }

  lemma SameNames(names: seq<string>, sorted: seq<string>)
    requires multiset(names) == multiset(sorted) && NoDuplicates(names)
    ensures NoDuplicates(sorted) && |sorted| == |names|
    ensures forall n :: n in sorted <==> n in names
  {
    assert |multiset(names)| == |multiset(sorted)|;
    forall n
      ensures n in sorted <==> n in names
    {
      assert n in multiset(names) <==> n in multiset(sorted);
    }
    forall i, j | 0 <= i < j < |sorted|
      ensures sorted[i] != sorted[j]
    {
      if sorted[i] == sorted[j] {
        TwiceIn(sorted, i, j);
        OnceIn(names, sorted[i]);
      }
    }
  }

  lemma TwiceIn(s: seq<string>, i: nat, j: nat)
    requires i < j < |s| && s[i] == s[j]
    ensures multiset(s)[s[i]] >= 2
  {
    assert s == s[..j] + [s[j]] + s[j + 1..];
    assert s[i] == s[..j][i];
  }

  lemma {:induction false} OnceIn(s: seq<string>, x: string)
    requires NoDuplicates(s)
    ensures multiset(s)[x] <= 1
  {
    if s != [] {
      assert s == [s[0]] + s[1..];
      OnceIn(s[1..], x);
      if s[0] == x {
        assert x !in s[1..];
      }
    }
  }

  lemma {:induction false} LengthIsSize(names: seq<string>, all: set<string>)
    requires NoDuplicates(names) && forall n :: n in names <==> n in all
    ensures |names| == |all|
  {
    if names != [] {
      var rest := names[1..];
      assert names == [names[0]] + rest;
      forall n
        ensures n in rest <==> n in all - {names[0]}
      {
        if n in rest {
          assert n != names[0];
        }
      }
      LengthIsSize(rest, all - {names[0]});
    } else {
      assert all == {};
    }
  }

  function Elements(names: seq<string>): set<string> {
    set n | n in names
  }

  function Listing(byType: map<string, seq<string>>, t: string): seq<string> {
    if t in byType then byType[t] else []
  }

  function Profile(profiles: map<string, string>, name: string): string {
    if name in profiles then profiles[name] else ""
  }

  /** The entries seen so far, grouped by type, and the profiles they name. */
  ghost predicate Grouped(
      raw: RawMap, types: set<string>, seen: set<string>, byType: map<string, seq<string>>,
      profiles: map<string, string>)
  {
    && byType.Keys <= types
    && (forall t :: t in types ==>
          NoDuplicates(Listing(byType, t)) && Elements(Listing(byType, t)) == Names(raw, t) * seen)
    && (forall n :: n in profiles ==> profiles[n] == ProfileOf(raw, n))
    && (forall t, n :: t in types && n in Names(raw, t) * seen && n !in profiles ==> ProfileOf(raw, n) == "")
  }

  method GroupByType(raw: RawMap, types: set<string>)
    returns (byType: map<string, seq<string>>, profiles: map<string, string>)
    ensures Grouped(raw, types, raw.Keys, byType, profiles)
  {
    byType, profiles := map[], map[];
    var rest := raw.Keys;
    while rest != {}
      invariant rest <= raw.Keys
      invariant Grouped(raw, types, raw.Keys - rest, byType, profiles)
      decreases rest
    {
      var name :| name in rest;
      ghost var seen, byBefore, profilesBefore := raw.Keys - rest, byType, profiles;
      rest := rest - {name};
      assert raw.Keys - rest == seen + {name};
      var entry := raw[name];
      if !entry.Mapping? || !entry.typ.Str? || entry.typ.s !in types {
        assert forall t :: t in types ==> Names(raw, t) * (seen + {name}) == Names(raw, t) * seen;
        continue;
      }
      var t := entry.typ.s;
      byType := byType[t := Listing(byType, t) + [name]];
      if entry.profile.Str? {
        profiles := profiles[name := TrimSpace(entry.profile.s)];
      }
      GroupOne(raw, types, seen, byBefore, profilesBefore, name);
    }
    assert raw.Keys - rest == raw.Keys;
  }

  lemma GroupOne(
      raw: RawMap, types: set<string>, seen: set<string>, byType: map<string, seq<string>>,
      profiles: map<string, string>, name: string)
    requires Grouped(raw, types, seen, byType, profiles)
    requires name in raw && name !in seen && raw[name].Mapping? && raw[name].typ.Str? && raw[name].typ.s in types
    ensures var t := raw[name].typ.s;
            var profiles' := if raw[name].profile.Str? then profiles[name := ProfileOf(raw, name)] else profiles;
            Grouped(raw, types, seen + {name}, byType[t := Listing(byType, t) + [name]], profiles')
  {
    var t := raw[name].typ.s;
    var next := byType[t := Listing(byType, t) + [name]];
    forall u | u in types
      ensures NoDuplicates(Listing(next, u)) && Elements(Listing(next, u)) == Names(raw, u) * (seen + {name})
    {
      ListingStep(raw, seen, Listing(byType, u), name, u);
    }
  }

  /** A name joins the listing of its own type and no other. */
  lemma ListingStep(raw: RawMap, seen: set<string>, names: seq<string>, name: string, u: string)
    requires name in raw && name !in seen && raw[name].Mapping? && raw[name].typ.Str?
    requires NoDuplicates(names) && Elements(names) == Names(raw, u) * seen
    ensures var more := if u == raw[name].typ.s then names + [name] else names;
            NoDuplicates(more) && Elements(more) == Names(raw, u) * (seen + {name})
  {
    assert name in names ==> name in Elements(names);
    if u == raw[name].typ.s {
      assert name in Names(raw, u);
      assert Elements(names + [name]) == Elements(names) + {name} == Names(raw, u) * (seen + {name});
    } else {
      assert Names(raw, u) * (seen + {name}) == Names(raw, u) * seen;
    }
  }

  /** The checks on the entries of one type. */
  method CheckType(raw: RawMap, t: string, unsorted: seq<string>, profiles: map<string, string>)
    returns (errors: seq<ProfileError>)
    requires NoDuplicates(unsorted) && Elements(unsorted) == Names(raw, t)
    requires forall n :: n in unsorted ==> Profile(profiles, n) == ProfileOf(raw, n)
    ensures errors == [] <==> TypeDistinct(raw, t)
    ensures forall e :: e in errors ==> Accurate(raw, e)
  {
    errors := [];
    assert forall n :: n in unsorted <==> n in Elements(unsorted);
    LengthIsSize(unsorted, Names(raw, t));
    if |unsorted| < 2 {
      return;
    }
    var names := Sorted(unsorted);
    SameNames(unsorted, names);
    SortedAscends(unsorted);
    var missing := Missing(raw, names, profiles);
    if |missing| > 0 {
      assert missing[0] in missing;
      errors := [MissingProfile(t, names, missing)];
      return;
    }
    assert forall n :: n in names ==> ProfileOf(raw, n) != "" by {
      assert forall n :: n in missing <==> n in names && ProfileOf(raw, n) == "";
    }
    ghost var profile := (n: string) => ProfileOf(raw, n);
    errors := CheckShared(t, names, profiles, profile);
    assert forall n :: profile(n) == ProfileOf(raw, n);
  }

  method Missing(raw: RawMap, names: seq<string>, profiles: map<string, string>) returns (missing: seq<string>)
    requires forall n :: n in names ==> Profile(profiles, n) == ProfileOf(raw, n)
    ensures forall n :: n in missing <==> n in names && ProfileOf(raw, n) == ""
  {
    missing := [];
    for i := 0 to |names|
      invariant forall n :: n in missing <==> n in names[..i] && ProfileOf(raw, n) == ""
    {
      assert names[..i + 1] == names[..i] + [names[i]];
      if Profile(profiles, names[i]) == "" {
        missing := missing + [names[i]];
      }
    }
    assert names[..|names|] == names;
  }

  /** Two of the names select one profile. */
  ghost predicate SomeShare(profile: string -> string, names: seq<string>) {
    exists n, m :: n in names && m in names && n != m && profile(n) == profile(m)
  }

  /** The profiles of the names so far, each with one of the names that selects it. */
  ghost predicate Owners(profile: string -> string, names: seq<string>, seen: map<string, string>) {
    && (forall p :: p in seen ==> seen[p] in names && profile(seen[p]) == p)
    && (forall n :: n in names ==> profile(n) in seen)
  }

  ghost predicate Sharing(profile: string -> string, names: seq<string>, t: string, e: ProfileError) {
    && e.SharedProfile? && e.typ == t && e.prev != e.name && e.prev in names && e.name in names
    && profile(e.prev) == e.profile == profile(e.name)
  }

  ghost predicate AllSharing(profile: string -> string, names: seq<string>, t: string, errors: seq<ProfileError>) {
    forall e :: e in errors ==> Sharing(profile, names, t, e)
  }

  lemma SharingStep(
      profile: string -> string, names: seq<string>, t: string, errors: seq<ProfileError>, prev: string, i: nat)
    requires AllSharing(profile, names, t, errors) && i < |names| && names[i] !in names[..i]
    requires prev in names[..i] && profile(prev) == profile(names[i])
    ensures AllSharing(profile, names, t, errors + [SharedProfile(t, prev, names[i], profile(names[i]))])
  {
    assert prev != names[i] && prev in names && names[i] in names;
  }

  /** One more name either shares the profile of an earlier one or has its own. */
  lemma OwnersStep(profile: string -> string, names: seq<string>, name: string, seen: map<string, string>)
    requires Owners(profile, names, seen) && name !in names
    ensures profile(name) in seen ==>
              Owners(profile, names + [name], seen) && SomeShare(profile, names + [name])
              && seen[profile(name)] in names && profile(seen[profile(name)]) == profile(name)
    ensures profile(name) !in seen ==>
              Owners(profile, names + [name], seen[profile(name) := name])
              && (SomeShare(profile, names + [name]) <==> SomeShare(profile, names))
  {
  }

  /** Two entries selecting one profile are one connection under two names. */
  method CheckShared(t: string, names: seq<string>, profiles: map<string, string>, ghost profile: string -> string)
    returns (errors: seq<ProfileError>)
    requires NoDuplicates(names)
    requires forall n :: n in names ==> Profile(profiles, n) == profile(n)
    ensures errors == [] <==> !SomeShare(profile, names)
    ensures AllSharing(profile, names, t, errors)
  {
    errors := [];
    var seen: map<string, string> := map[];
    for i := 0 to |names|
      invariant Owners(profile, names[..i], seen)
      invariant AllSharing(profile, names, t, errors)
      invariant errors == [] <==> !SomeShare(profile, names[..i])
    {
      var name := names[i];
      assert names[..i + 1] == names[..i] + [name];
      NotBefore(names, i);
      OwnersStep(profile, names[..i], name, seen);
      var mine := Profile(profiles, name);
      assert mine == profile(name);
      if mine in seen {
        var prev := seen[mine];
        SharingStep(profile, names, t, errors, prev, i);
        errors := errors + [SharedProfile(t, prev, name, mine)];
        continue;
      }
      seen := seen[mine := name];
    }
    assert names[..|names|] == names;
  }

  lemma NotBefore(names: seq<string>, i: nat)
    requires NoDuplicates(names) && i < |names|
    ensures names[i] !in names[..i]
  {
  }

  lemma GroupOf(
      raw: RawMap, types: set<string>, byType: map<string, seq<string>>, profiles: map<string, string>, t: string)
    requires Grouped(raw, types, raw.Keys, byType, profiles) && t in byType
    ensures NoDuplicates(byType[t]) && Elements(byType[t]) == Names(raw, t)
    ensures forall n :: n in byType[t] ==> Profile(profiles, n) == ProfileOf(raw, n)
  {
    assert Names(raw, t) * raw.Keys == Names(raw, t) && Listing(byType, t) == byType[t];
    assert forall n :: n in byType[t] ==> n in Elements(byType[t]);
  }

  /** The loop over the types that have entries. */
  method CheckTypes(raw: RawMap, types: set<string>, byType: map<string, seq<string>>, profiles: map<string, string>)
    returns (errors: seq<ProfileError>)
    requires Grouped(raw, types, raw.Keys, byType, profiles)
    ensures errors == [] <==> forall t :: t in byType ==> TypeDistinct(raw, t)
    ensures forall e :: e in errors ==> Accurate(raw, e)
  {
    errors := [];
    var rest := byType.Keys;
    ghost var done: set<string> := {};
    while rest != {}
      invariant rest <= byType.Keys && done == byType.Keys - rest
      invariant errors == [] <==> forall t :: t in done ==> TypeDistinct(raw, t)
      invariant forall e :: e in errors ==> Accurate(raw, e)
      decreases rest
    {
      var t :| t in rest;
      rest, done := rest - {t}, done + {t};
      GroupOf(raw, types, byType, profiles, t);
      var more := CheckType(raw, t, byType[t], profiles);
      errors := errors + more;
    }
  }

  /** validateDaemonVPNProfiles: no error exactly when the profiles tell the
      entries of each daemon apart, and every error is a true one. */
  method ValidateDaemonVPNProfiles(raw: RawMap) returns (errors: seq<ProfileError>)
    ensures errors == [] <==> ProfilesDistinct(raw)
    ensures forall e :: e in errors ==> Accurate(raw, e)
  {
    var types := DAEMON_TYPES;
    var byType, profiles := GroupByType(raw, types);
    errors := CheckTypes(raw, types, byType, profiles);
    forall t | t in types && t !in byType
      ensures TypeDistinct(raw, t)
    {
      assert Elements([]) == {} && Names(raw, t) * raw.Keys == Names(raw, t);
    }
  }

  // ---- the listing

  /** What the probes found running; the profile is asked for only while NetBird is up. */
  datatype Probes = Probes(
    openvpn: bool, wireguard: set<string>, tailscale: bool, netbird: bool, netbirdProfile: string)

  datatype Active = Active(name: string, iface: string)

  datatype Status = Status(name: string, typ: string, connected: bool, iface: string, ambiguous: bool)

  function Live(p: Probes, typ: string, iface: string): bool {
    if typ == OPENVPN then p.openvpn
    else if typ == WIREGUARD then (if iface == "" then "wg0" else iface) in p.wireguard
    else if typ == TAILSCALE then p.tailscale
    else if typ == NETBIRD then p.netbird
    else false
  }

  function DefaultIface(typ: string, iface: string): string {
    if iface != "" then iface
    else if typ == OPENVPN then "tun0"
    else if typ == WIREGUARD then "wg0"
    else if typ == TAILSCALE then "tailscale0"
    else if typ == NETBIRD then "wt0"
    else ""
  }

  /** The entries of a type, for every type but the exempt one. */
  function SameType(config: VPNMap, typ: string, exempt: string): set<string> {
    set n | n in config && config[n].typ == typ && typ != exempt
  }

  function ActiveProfile(p: Probes): string {
    if p.netbird then p.netbirdProfile else ""
  }

  /** ListVPNs's decision for one entry, from the counts it collected. */
  function Decide(c: VPNConfig, active: Option<Active>, p: Probes, name: string, sameType: nat): (r: Status)
    ensures r.name == name && r.typ == c.typ && !(r.connected && r.ambiguous)
  {
    var activeName := if active.Some? then active.value.name else "";
    var iface := if active.Some? && name == activeName && active.value.iface != "" then active.value.iface else c.iface;
    var shown := DefaultIface(c.typ, c.iface);
    if activeName != "" then
      Status(name, c.typ, name == activeName && Live(p, c.typ, iface), shown, false)
    else if c.typ == NETBIRD && c.profile != "" && ActiveProfile(p) != "" then
      Status(name, c.typ, p.netbird && c.profile == ActiveProfile(p), shown, false)
    else if sameType > 1 then
      Status(name, c.typ, false, shown, Live(p, c.typ, iface))
    else
      Status(name, c.typ, Live(p, c.typ, iface), shown, false)
  }

  /** The status of one configured VPN. */
  function StatusOf(config: VPNMap, active: Option<Active>, p: Probes, name: string): Status
    requires name in config
  {
    Decide(config[name], active, p, name, |SameType(config, config[name].typ, WIREGUARD)|)
  }

  /** A running WireGuard interface that no configuration names. */
  function Unnamed(iface: string): Status {
    Status(iface, WIREGUARD, true, iface, false)
  }

  /** One status per configured VPN; without any, one per tunnel found running. */
  ghost predicate Listed(config: VPNMap, active: Option<Active>, p: Probes, vpns: seq<Status>) {
    if config.Keys != {} then
      && (forall i :: 0 <= i < |vpns| ==>
            vpns[i].name in config && vpns[i] == StatusOf(config, active, p, vpns[i].name))
      && (forall name :: name in config ==> exists i :: 0 <= i < |vpns| && vpns[i].name == name)
      && (forall i, j :: 0 <= i < j < |vpns| ==> vpns[i].name != vpns[j].name)
    else
      && (forall i :: 0 <= i < |vpns| ==>
            vpns[i].connected && !vpns[i].ambiguous && vpns[i].typ in {OPENVPN, WIREGUARD})
      && (forall i :: 0 <= i < |vpns| && vpns[i].typ == OPENVPN ==>
            vpns[i].name == "openvpn" && vpns[i].iface == "tun0")
      && (forall i, j :: 0 <= i < j < |vpns| ==> !(vpns[i].typ == vpns[j].typ == OPENVPN))
      && ((exists i :: 0 <= i < |vpns| && vpns[i].typ == OPENVPN) <==> p.openvpn)
      && (forall i :: 0 <= i < |vpns| && vpns[i].typ == WIREGUARD ==>
            vpns[i].iface == vpns[i].name && vpns[i].name in p.wireguard)
      && (forall name :: name in p.wireguard ==> exists i :: 0 <= i < |vpns| && vpns[i] == Unnamed(name))
      && (forall i, j :: 0 <= i < j < |vpns| && vpns[i].typ == vpns[j].typ ==> vpns[i].name != vpns[j].name)
  }

  // ---- what a listed status says

  /** The probe of an entry's own type found it running; an entry of any other
      type never is. iface is the interface a WireGuard entry is looked up by. */
  predicate ProbedUp(p: Probes, typ: string, iface: string) {
    || (typ == "openvpn" && p.openvpn)
    || (typ == "wireguard" && iface in p.wireguard)
    || (typ == "tailscale" && p.tailscale)
    || (typ == "netbird" && p.netbird)
  }

  /** The recorded interface of the active VPN, else the configured one, else wg0. */
  predicate LooksFor(c: VPNConfig, recorded: string, iface: string) {
    if recorded != "" then iface == recorded else if c.iface != "" then iface == c.iface else iface == "wg0"
  }

  /** With a VPN named by the state file, an entry is connected exactly when it
      is that one and the probe of its type found it running. */
  lemma NamedStatus(config: VPNMap, a: Active, p: Probes, name: string, iface: string)
    requires name in config && a.name != ""
    requires LooksFor(config[name], if name == a.name then a.iface else "", iface)
    ensures var v := StatusOf(config, Some(a), p, name);
            !v.ambiguous && (v.connected <==> name == a.name && ProbedUp(p, config[name].typ, iface))
  {
  }

  /** Without one, a NetBird entry with a profile goes by the daemon's profile. */
  lemma ProfileStatus(config: VPNMap, p: Probes, name: string)
    requires name in config && config[name].typ == "netbird" && config[name].profile != ""
    requires p.netbird && p.netbirdProfile != ""
    ensures var v := StatusOf(config, None, p, name);
            !v.ambiguous && (v.connected <==> config[name].profile == p.netbirdProfile)
  {
  }

  /** Otherwise a WireGuard entry, or the only one of its type, is connected
      exactly when its probe is up; one of several is never connected, and
      ambiguous exactly when it is. */
  lemma UnnamedStatus(config: VPNMap, p: Probes, name: string, iface: string)
    requires name in config && LooksFor(config[name], "", iface)
    requires config[name].typ == "netbird" && config[name].profile != "" ==> !p.netbird || p.netbirdProfile == ""
    ensures var v, c := StatusOf(config, None, p, name), config[name];
            var several := c.typ != "wireguard" && exists n :: n in config && n != name && config[n].typ == c.typ;
            && (v.connected <==> !several && ProbedUp(p, c.typ, iface))
            && (v.ambiguous <==> several && ProbedUp(p, c.typ, iface))
  {
    SeveralIff(config, name);
  }

  lemma SeveralIff(config: VPNMap, name: string)
    requires name in config
    ensures |SameType(config, config[name].typ, WIREGUARD)| > 1 <==>
            config[name].typ != WIREGUARD && exists n :: n in config && n != name && config[n].typ == config[name].typ
  {
    var s := SameType(config, config[name].typ, WIREGUARD);
    if config[name].typ == WIREGUARD {
      assert s == {};
    } else if n :| n in config && n != name && config[n].typ == config[name].typ {
      SameTypeTwice(config, config[name].typ, n, name);
    } else {
      assert s == {name};
    }
  }

  /** The state file without a name is no state file, but for an entry with no
      name of its own, which then goes by the recorded interface. */
  lemma NamelessRecord(config: VPNMap, a: Active, p: Probes, name: string)
    requires name in config && a.name == "" && (name != "" || a.iface == "")
    ensures StatusOf(config, Some(a), p, name) == StatusOf(config, None, p, name)
  {
  }

  /** What is shown as an entry's name, type and interface. */
  lemma ShownAs(config: VPNMap, active: Option<Active>, p: Probes, name: string)
    requires name in config
    ensures var v, c := StatusOf(config, active, p, name), config[name];
            && v.name == name && v.typ == c.typ
            && (c.iface != "" ==> v.iface == c.iface)
            && (c.iface == "" ==>
                  && (c.typ == "openvpn" ==> v.iface == "tun0") && (c.typ == "wireguard" ==> v.iface == "wg0")
                  && (c.typ == "tailscale" ==> v.iface == "tailscale0") && (c.typ == "netbird" ==> v.iface == "wt0"))
  {
  }

  /** A string type is the only kind that decodes to a daemon's name. */
  ghost predicate PlainTypes(raw: RawMap) {
    forall n :: n in raw && raw[n].Mapping? && raw[n].typ.Other? ==> raw[n].typ.decoded !in DAEMON_TYPES
  }

  lemma SameTypeTwice(config: VPNMap, typ: string, n: string, m: string)
    requires n in config && m in config && n != m && config[n].typ == config[m].typ == typ != WIREGUARD
    ensures |SameType(config, typ, WIREGUARD)| > 1
  {
    var s := SameType(config, typ, WIREGUARD);
    assert {n, m} <= s;
    var rest := s - {n};
    assert m in rest;
    assert |s| == |rest| + 1;
  }

  /** NetBird entries that name a profile name different ones. */
  predicate NetBirdApart(config: VPNMap) {
    forall n, m :: n in config && m in config && n != m && NamesProfile(config[n]) && NamesProfile(config[m]) ==>
      config[n].profile != config[m].profile
  }

  predicate NamesProfile(c: VPNConfig) {
    c.typ == NETBIRD && c.profile != ""
  }

  /** Two entries of one type other than WireGuard are never both connected. */
  ghost predicate NeverBoth(config: VPNMap) {
    forall active, p, n, m :: n in config && m in config && n != m && config[n].typ == config[m].typ != WIREGUARD ==>
      !(StatusOf(config, active, p, n).connected && StatusOf(config, active, p, m).connected)
  }

  /** Whatever the state file and the probes say, at most one entry of each type
      other than WireGuard is reported connected: exactly when the NetBird
      entries that name a profile name different ones. */
  lemma NeverBothIff(config: VPNMap)
    ensures NeverBoth(config) <==> NetBirdApart(config)
  {
    if NetBirdApart(config) {
      forall active, p, n, m |
        n in config && m in config && n != m && config[n].typ == config[m].typ != WIREGUARD
        ensures !(StatusOf(config, active, p, n).connected && StatusOf(config, active, p, m).connected)
      {
        SameTypeTwice(config, config[n].typ, n, m);
      }
    } else {
      var n, m :| n in config && m in config && n != m && NamesProfile(config[n]) && NamesProfile(config[m])
                  && config[n].profile == config[m].profile;
      var p := SharedProfileConfuses(config, n, m);
      assert NETBIRD[0] != WIREGUARD[0];
    }
  }

  /** A validated configuration is of that kind. */
  lemma ValidatedIsApart(raw: RawMap)
    requires ProfilesDistinct(raw) && PlainTypes(raw)
    ensures NetBirdApart(DecodedMap(raw))
  {
    var config := DecodedMap(raw);
    forall n, m | n in config && m in config && n != m && config[n].typ == config[m].typ == NETBIRD
      ensures config[n].profile != config[m].profile
    {
      NetBirdProfilesDiffer(raw, n, m);
    }
  }

  /** With a validated configuration at most one entry of each type other than
      WireGuard is reported connected, whatever the state file and the probes
      say, and none is both connected and ambiguous. */
  lemma AtMostOneConnected(
      raw: RawMap, active: Option<Active>, p: Probes, vpns: seq<Status>, i: nat, j: nat)
    requires ProfilesDistinct(raw) && PlainTypes(raw)
    requires Listed(DecodedMap(raw), active, p, vpns)
    requires i < j < |vpns| && vpns[i].typ == vpns[j].typ != WIREGUARD
    ensures !(vpns[i].connected && vpns[j].connected)
    ensures !(vpns[i].connected && vpns[i].ambiguous) && !(vpns[j].connected && vpns[j].ambiguous)
  {
    var config := DecodedMap(raw);
    if config.Keys != {} {
      ConfiguredPair(config, active, p, vpns, i, j);
      ValidatedIsApart(raw);
    }
  }

  lemma ConfiguredPair(config: VPNMap, active: Option<Active>, p: Probes, vpns: seq<Status>, i: nat, j: nat)
    requires config.Keys != {} && Listed(config, active, p, vpns)
    requires i < j < |vpns| && vpns[i].typ == vpns[j].typ != WIREGUARD
    ensures var n, m := vpns[i].name, vpns[j].name;
            && n in config && m in config && n != m && config[n].typ == config[m].typ != WIREGUARD
            && |SameType(config, config[n].typ, WIREGUARD)| > 1
            && vpns[i] == Decide(config[n], active, p, n, |SameType(config, config[n].typ, WIREGUARD)|)
            && vpns[j] == Decide(config[m], active, p, m, |SameType(config, config[n].typ, WIREGUARD)|)
  {
    var n, m := vpns[i].name, vpns[j].name;
    SameTypeTwice(config, config[n].typ, n, m);
  }

  lemma NetBirdProfilesDiffer(raw: RawMap, n: string, m: string)
    requires ProfilesDistinct(raw) && PlainTypes(raw) && n in raw && m in raw && n != m
    requires Decoded(raw[n]).typ == Decoded(raw[m]).typ == NETBIRD
    ensures Decoded(raw[n]).profile != Decoded(raw[m]).profile
    ensures Decoded(raw[n]).profile != "" && Decoded(raw[m]).profile != ""
  {
    var s := Names(raw, NETBIRD);
    assert {n, m} <= s;
    var rest := s - {n};
    assert m in rest;
    assert |s| == |rest| + 1;
    assert TrimSpace("") == "";
  }

  /** The validator is what makes it so: two NetBird entries that name one
      profile can both be reported connected. */
  lemma SharedProfileConfuses(config: VPNMap, n: string, m: string) returns (p: Probes)
    requires n in config && m in config && n != m
    requires config[n].typ == config[m].typ == NETBIRD && config[n].profile == config[m].profile != ""
    ensures StatusOf(config, None, p, n).connected && StatusOf(config, None, p, m).connected
  {
    p := Probes(false, {}, false, true, config[n].profile);
  }

  lemma CountOneMore(before: VPNMap, name: string, c: VPNConfig, t: string, exempt: string)
    requires name !in before
    ensures |SameType(before[name := c], t, exempt)|
         == |SameType(before, t, exempt)| + if t == c.typ != exempt then 1 else 0
  {
    assert SameType(before[name := c], t, exempt)
        == SameType(before, t, exempt) + if t == c.typ != exempt then {name} else {};
  }

  function Count(typeCount: map<string, nat>, t: string): nat {
    if t in typeCount then typeCount[t] else 0
  }

  method CountTypes(config: VPNMap, exempt: string) returns (typeCount: map<string, nat>)
    ensures forall t :: Count(typeCount, t) == |SameType(config, t, exempt)|
  {
    typeCount := map[];
    var rest := config.Keys;
    ghost var part: VPNMap := map[];
    assert forall t :: SameType(part, t, exempt) == {};
    while rest != {}
      invariant rest <= config.Keys && part.Keys == config.Keys - rest
      invariant forall n :: n in part ==> part[n] == config[n]
      invariant forall t :: Count(typeCount, t) == |SameType(part, t, exempt)|
      decreases rest
    {
      var name :| name in rest;
      rest := rest - {name};
      var typ := config[name].typ;
      ghost var before := part;
      part := part[name := config[name]];
      forall t
        ensures |SameType(part, t, exempt)| == |SameType(before, t, exempt)| + if t == typ != exempt then 1 else 0
      {
        CountOneMore(before, name, config[name], t, exempt);
      }
      if typ != exempt {
        typeCount := typeCount[typ := Count(typeCount, typ) + 1];
      }
    }
    assert part == config;
  }

  /** One status per name, in whatever order the map yields the names. */
  ghost predicate OnePerName(names: set<string>, want: string -> Status, vpns: seq<Status>, at: map<string, nat>) {
    && at.Keys == names
    && (forall n :: n in names ==> at[n] < |vpns| && vpns[at[n]].name == n)
    && (forall i :: 0 <= i < |vpns| ==> vpns[i].name in names && vpns[i] == want(vpns[i].name))
    && (forall i, j :: 0 <= i < j < |vpns| ==> vpns[i].name != vpns[j].name)
  }

  lemma OneMoreName(
      names: set<string>, want: string -> Status, vpns: seq<Status>, at: map<string, nat>, name: string)
    requires OnePerName(names, want, vpns, at) && name !in names && want(name).name == name
    ensures OnePerName(names + {name}, want, vpns + [want(name)], at[name := |vpns|])
  {
  }

  /** The loop over the configured VPNs. */
  method ListEach(names: set<string>, status: string -> Status) returns (vpns: seq<Status>, ghost at: map<string, nat>)
    requires forall n :: n in names ==> status(n).name == n
    ensures OnePerName(names, status, vpns, at)
  {
    vpns, at := [], map[];
    var rest := names;
    ghost var done: set<string> := {};
    while rest != {}
      invariant rest <= names && done == names - rest
      invariant OnePerName(done, status, vpns, at)
      decreases rest
    {
      var name :| name in rest;
      OneMoreName(done, status, vpns, at, name);
      rest, done, at := rest - {name}, done + {name}, at[name := |vpns|];
      vpns := vpns + [status(name)];
    }
    assert done == names;
  }

  /** The unnamed tunnels so far: those of seen, after OpenVPN's if it runs. */
  ghost predicate Running(vpns: seq<Status>, openvpn: bool, seen: set<string>) {
    var first := if openvpn then 1 else 0;
    && |vpns| >= first
    && (openvpn ==> vpns[0] == Status("openvpn", OPENVPN, true, "tun0", false))
    && (forall i :: first <= i < |vpns| ==> vpns[i] == Unnamed(vpns[i].name) && vpns[i].name in seen)
    && (forall name :: name in seen ==> exists i :: first <= i < |vpns| && vpns[i] == Unnamed(name))
    && (forall i, j :: first <= i < j < |vpns| ==> vpns[i].name != vpns[j].name)
  }

  lemma RunningOneMore(vpns: seq<Status>, openvpn: bool, seen: set<string>, iface: string)
    requires Running(vpns, openvpn, seen) && iface !in seen
    ensures Running(vpns + [Unnamed(iface)], openvpn, seen + {iface})
  {
    var more := vpns + [Unnamed(iface)];
    forall name | name in seen + {iface}
      ensures exists i :: (if openvpn then 1 else 0) <= i < |more| && more[i] == Unnamed(name)
    {
      if name == iface {
        assert more[|vpns|] == Unnamed(name);
      } else {
        var i :| (if openvpn then 1 else 0) <= i < |vpns| && vpns[i] == Unnamed(name);
        assert more[i] == Unnamed(name);
      }
    }
  }

  lemma RunningIsListed(vpns: seq<Status>, active: Option<Active>, p: Probes)
    requires Running(vpns, p.openvpn, p.wireguard)
    ensures Listed(map[], active, p, vpns)
  {
    assert OPENVPN[0] != WIREGUARD[0];
    assert p.openvpn ==> vpns[0].typ == OPENVPN;
  }

  /** Unnamed tunnels found running when no VPN is configured. */
  method ListRunning(p: Probes) returns (vpns: seq<Status>)
    ensures Running(vpns, p.openvpn, p.wireguard)
  {
    vpns := [];
    if p.openvpn {
      vpns := [Status("openvpn", OPENVPN, true, "tun0", false)];
    }
    var rest := p.wireguard;
    ghost var seen: set<string> := {};
    while rest != {}
      invariant rest <= p.wireguard && seen == p.wireguard - rest
      invariant Running(vpns, p.openvpn, seen)
      decreases rest
    {
      var iface :| iface in rest;
      RunningOneMore(vpns, p.openvpn, seen, iface);
      rest, seen := rest - {iface}, seen + {iface};
      vpns := vpns + [Unnamed(iface)];
    }
    assert seen == p.wireguard;
  }

  method ListVPNs(config: VPNMap, active: Option<Active>, p: Probes) returns (vpns: seq<Status>)
    ensures Listed(config, active, p, vpns)
  {
    var typeCount := CountTypes(config, WIREGUARD);
    var status := (n: string) =>
      if n in config then Decide(config[n], active, p, n, Count(typeCount, config[n].typ))
      else Status(n, "", false, "", false);
    ghost var at;
    vpns, at := ListEach(config.Keys, status);
    EachIsListed(config, active, p, status, vpns, at);
    if |vpns| == 0 {
      vpns := ListRunning(p);
      RunningIsListed(vpns, active, p);
      assert config == map[];
    }
  }

  lemma EachIsListed(
      config: VPNMap, active: Option<Active>, p: Probes, status: string -> Status, vpns: seq<Status>,
      at: map<string, nat>)
    requires OnePerName(config.Keys, status, vpns, at)
    requires forall n :: n in config ==> status(n) == StatusOf(config, active, p, n)
    ensures config.Keys != {} ==> vpns != [] && Listed(config, active, p, vpns)
    ensures config.Keys == {} ==> vpns == []
  {
    assert |vpns| > 0 ==> vpns[0].name in config.Keys;
    if config.Keys != {} {
      var name :| name in config.Keys;
      assert at[name] < |vpns|;
      forall n | n in config
        ensures exists i :: 0 <= i < |vpns| && vpns[i].name == n
      {
        assert vpns[at[n]].name == n;
      }
    }
  }
}
