/** The WireGuard INI configuration of pkg/wgconfig: the one-pass parser for the
    device, the separate one-pass walk for the wg-quick settings, and the
    section-by-section reading that both must agree with. */
module WgParse {
  import opened Strings

  datatype IP = IP(text: string, v4: bool)
  datatype Net = Net(ip: string, bits: nat)

  /** Library parsing this model leaves open. */
  datatype Lib = Lib(
    parseKey: string -> Option<string>,
    resolveEndpoint: string -> Option<string>,
    parseIP: string -> Option<IP>,
    parseCIDR: string -> Option<Net>,
    parseUint32: string -> Option<nat>)

  datatype Device = Device(privateKey: Option<string>, listenPort: Option<int>, fwMark: Option<nat>)
  datatype Peer = Peer(
    publicKey: string,
    presharedKey: Option<string>,
    endpoint: Option<string>,
    allowedIPs: seq<Net>,
    keepalive: Option<int>)
  datatype Config = Config(device: Device, peers: seq<Peer>)
  datatype Settings = Settings(mtu: int, dns: seq<string>)

  // ---- values

  function ParseMTU(value: string): (r: Option<int>)
    ensures r.Some? ==> 68 <= r.value <= 65535 && Atoi(value) == r
  {
    match Atoi(value)
    case None => None
    case Some(mtu) => if mtu < 68 || mtu > 65535 then None else Some(mtu)
  }

  function ParsePort(value: string): Option<int> {
    match Atoi(value)
    case None => None
    case Some(port) => if port < 0 || port > 65535 then None else Some(port)
  }

  function ParseKeepalive(value: string): Option<int> {
    match Atoi(value)
    case None => None
    case Some(secs) => if secs < 0 then None else Some(secs)
  }

  function ParseFwMark(lib: Lib, value: string): Option<nat> {
    if ToLower(value) == "off" then Some(0) else lib.parseUint32(value)
  }

  function DNSEntries(parts: seq<string>): seq<string> {
    if parts == [] then []
    else (if TrimSpace(parts[0]) != "" then [TrimSpace(parts[0])] else []) + DNSEntries(parts[1..])
  }

  function ParseDNS(value: string): seq<string> {
    DNSEntries(Split(value, ','))
  }

  function ParseAllowedIP(lib: Lib, part: string): Option<Net> {
    if '/' !in part then
      match lib.parseIP(part)
      case None => None
      case Some(ip) => Some(Net(ip.text, if ip.v4 then 32 else 128))
    else lib.parseCIDR(part)
  }

  function AllowedIPEntries(lib: Lib, parts: seq<string>): Option<seq<Net>> {
    if parts == [] then Some([])
    else
      var part := TrimSpace(parts[0]);
      var rest := AllowedIPEntries(lib, parts[1..]);
      if part == "" then rest
      else match ParseAllowedIP(lib, part)
        case None => None
        case Some(net) => if rest.Some? then Some([net] + rest.value) else None
  }

  function ParseAllowedIPs(lib: Lib, value: string): Option<seq<Net>> {
    AllowedIPEntries(lib, Split(value, ','))
  }

  /** parseDNS's loop. */
  method CollectDNS(parts: seq<string>) returns (out: seq<string>)
    ensures out == DNSEntries(parts)
  {
    out := [];
    assert parts[0..] == parts;
    for i := 0 to |parts|
      invariant DNSEntries(parts) == out + DNSEntries(parts[i..])
    {
      var part := TrimSpace(parts[i]);
      KeepPart(out, part, DNSEntries(parts[i + 1..]));
      if part != "" {
        out := out + [part];
      }
    }
    assert parts[|parts|..] == [];
  }

  lemma KeepPart(out: seq<string>, part: string, rest: seq<string>)
    ensures out + ([part] + rest) == out + [part] + rest
  {
  }

  function Prepend(nets: seq<Net>, rest: Option<seq<Net>>): Option<seq<Net>> {
    match rest case Some(more) => Some(nets + more) case None => None
  }

  lemma PrependAssoc(nets: seq<Net>, net: Net, rest: Option<seq<Net>>)
    ensures Prepend(nets, Prepend([net], rest)) == Prepend(nets + [net], rest)
  {
    if rest.Some? {
      assert nets + ([net] + rest.value) == nets + [net] + rest.value;
    }
  }

  lemma PrependNothing(rest: Option<seq<Net>>)
    ensures Prepend([], rest) == rest
  {
    if rest.Some? {
      assert [] + rest.value == rest.value;
    }
  }

  /** parseAllowedIPs's loop: the first bad entry ends it. */
  method CollectAllowedIPs(lib: Lib, parts: seq<string>) returns (r: Option<seq<Net>>)
    ensures r == AllowedIPEntries(lib, parts)
  {
    var nets: seq<Net> := [];
    assert parts[0..] == parts;
    PrependNothing(AllowedIPEntries(lib, parts));
    for i := 0 to |parts|
      invariant AllowedIPEntries(lib, parts) == Prepend(nets, AllowedIPEntries(lib, parts[i..]))
    {
      var part := TrimSpace(parts[i]);
      if part == "" {
        continue;
      }
      var net := ParseAllowedIP(lib, part);
      if net.None? {
        return None;
      }
      PrependAssoc(nets, net.value, AllowedIPEntries(lib, parts[i + 1..]));
      nets := nets + [net.value];
    }
    assert nets + [] == nets;
    return Some(nets);
  }

  // ---- lines and sections

  datatype KV = KV(key: string, value: string)
  datatype Item = Blank | Header(name: string) | Pair(kv: KV) | Junk

  function Classify(raw: string): Item {
    var line := TrimSpace(raw);
    if line == "" || HasPrefix(line, "#") || HasPrefix(line, ";") then Blank
    else if HasPrefix(line, "[") && HasSuffix(line, "]") then
      assert line[0] == '[' && line[|line| - 1..][0] == ']';
      Header(ToLower(TrimSpace(line[1..|line| - 1])))
    else
      var i := IndexOf(line, '=');
      if i == |line| then Junk
      else Pair(KV(ToLower(TrimSpace(line[..i])), TrimSpace(line[i + 1..])))
  }

  function Items(lines: seq<string>): (items: seq<Item>)
    ensures |items| == |lines|
  {
    if lines == [] then [] else [Classify(lines[0])] + Items(lines[1..])
  }

  lemma {:induction false} ItemAt(lines: seq<string>, i: nat)
    requires i < |lines|
    ensures Items(lines)[i] == Classify(lines[i])
  {
    if i > 0 {
      ItemAt(lines[1..], i - 1);
    }
  }

  datatype Section = Section(name: string, pairs: seq<KV>)

  /** The text cut into its sections; stray holds the pairs before any header. */
  datatype Outline = Outline(stray: seq<KV>, sections: seq<Section>)

  function AddItem(o: Outline, item: Item): Outline {
    match item
    case Header(name) => o.(sections := o.sections + [Section(name, [])])
    case Pair(kv) =>
      if o.sections == [] then o.(stray := o.stray + [kv])
      else
        var n := |o.sections| - 1;
        o.(sections := o.sections[..n] + [Section(o.sections[n].name, o.sections[n].pairs + [kv])])
    case _ => o
  }

  function OutlineOf(items: seq<Item>): Outline {
    if items == [] then Outline([], [])
    else AddItem(OutlineOf(items[..|items| - 1]), items[|items| - 1])
  }

  /** The value of the last pair with this key. */
  function Last(pairs: seq<KV>, key: string): Option<string> {
    if pairs == [] then None
    else if pairs[|pairs| - 1].key == key then Some(pairs[|pairs| - 1].value)
    else Last(pairs[..|pairs| - 1], key)
  }

  predicate IgnoredInterfaceKey(key: string) {
    || key == "dns" || key == "address" || key == "table" || key == "preup" || key == "postup" || key == "predown"
    || key == "postdown" || key == "saveconfig"
  }

  predicate InterfacePairLegal(lib: Lib, kv: KV) {
    || (kv.key == "privatekey" && lib.parseKey(kv.value).Some?)
    || (kv.key == "listenport" && ParsePort(kv.value).Some?)
    || (kv.key == "fwmark" && ParseFwMark(lib, kv.value).Some?)
    || (kv.key == "mtu" && ParseMTU(kv.value).Some?)
    || IgnoredInterfaceKey(kv.key)
  }

  predicate PeerPairLegal(lib: Lib, kv: KV) {
    || (kv.key == "publickey" && lib.parseKey(kv.value).Some?)
    || (kv.key == "presharedkey" && lib.parseKey(kv.value).Some?)
    || (kv.key == "endpoint" && lib.resolveEndpoint(kv.value).Some?)
    || (kv.key == "allowedips" && ParseAllowedIPs(lib, kv.value).Some?)
    || (kv.key == "persistentkeepalive" && ParseKeepalive(kv.value).Some?)
  }

  predicate KeysLegal(lib: Lib, s: Section) {
    || (s.name == "interface" && forall kv :: kv in s.pairs ==> InterfacePairLegal(lib, kv))
    || (s.name == "peer" && forall kv :: kv in s.pairs ==> PeerPairLegal(lib, kv))
  }

  predicate SectionLegal(lib: Lib, s: Section) {
    KeysLegal(lib, s) && (s.name == "peer" ==> Last(s.pairs, "publickey").Some?)
  }

  /** Every section and key is legal and every [Peer] has a PublicKey. */
  predicate Legal(lib: Lib, items: seq<Item>) {
    && Junk !in items
    && OutlineOf(items).stray == []
    && forall s :: s in OutlineOf(items).sections ==> SectionLegal(lib, s)
  }

  function InterfacePairs(ss: seq<Section>): seq<KV> {
    if ss == [] then []
    else
      var s := ss[|ss| - 1];
      InterfacePairs(ss[..|ss| - 1]) + if s.name == "interface" then s.pairs else []
  }

  function Bind<A>(v: Option<string>, parse: string -> Option<A>): Option<A> {
    match v case Some(s) => parse(s) case None => None
  }

  function DeviceOf(lib: Lib, pairs: seq<KV>): Device {
    Device(
      Bind(Last(pairs, "privatekey"), lib.parseKey),
      Bind(Last(pairs, "listenport"), ParsePort),
      Bind(Last(pairs, "fwmark"), s => ParseFwMark(lib, s)))
  }

  function AllowedIPsOf(lib: Lib, pairs: seq<KV>): seq<Net> {
    if pairs == [] then []
    else
      var kv := pairs[|pairs| - 1];
      AllowedIPsOf(lib, pairs[..|pairs| - 1])
      + if kv.key == "allowedips" && ParseAllowedIPs(lib, kv.value).Some? then ParseAllowedIPs(lib, kv.value).value
        else []
  }

  function PeerOf(lib: Lib, pairs: seq<KV>): Peer {
    Peer(
      match Bind(Last(pairs, "publickey"), lib.parseKey) case Some(k) => k case None => "",
      Bind(Last(pairs, "presharedkey"), lib.parseKey),
      Bind(Last(pairs, "endpoint"), lib.resolveEndpoint),
      AllowedIPsOf(lib, pairs),
      Bind(Last(pairs, "persistentkeepalive"), ParseKeepalive))
  }

  function PeersOf(lib: Lib, ss: seq<Section>): seq<Peer> {
    if ss == [] then []
    else
      var s := ss[|ss| - 1];
      PeersOf(lib, ss[..|ss| - 1]) + if s.name == "peer" then [PeerOf(lib, s.pairs)] else []
  }

  /** The section-wise reading of a configuration. */
  function ReadItems(lib: Lib, items: seq<Item>): Option<Config> {
    if Legal(lib, items) then
      var ss := OutlineOf(items).sections;
      Some(Config(DeviceOf(lib, InterfacePairs(ss)), PeersOf(lib, ss)))
    else None
  }

  function Read(lib: Lib, text: string): Option<Config> {
    ReadItems(lib, Items(Split(text, '\n')))
  }

  function DNSOf(pairs: seq<KV>): seq<string> {
    if pairs == [] then []
    else
      var kv := pairs[|pairs| - 1];
      DNSOf(pairs[..|pairs| - 1]) + if kv.key == "dns" then ParseDNS(kv.value) else []
  }

  predicate MTUsLegal(pairs: seq<KV>) {
    forall kv :: kv in pairs && kv.key == "mtu" ==> ParseMTU(kv.value).Some?
  }

  function SettingsOf(pairs: seq<KV>): Settings {
    Settings(match Bind(Last(pairs, "mtu"), ParseMTU) case Some(m) => m case None => 0, DNSOf(pairs))
  }

  /** The section-wise reading of the wg-quick settings. */
  function ReadSettings(text: string): Option<Settings> {
    var pairs := InterfacePairs(OutlineOf(Items(Split(text, '\n'))).sections);
    if MTUsLegal(pairs) then Some(SettingsOf(pairs)) else None
  }

  // ---- facts about the readings

  lemma LastFound(pairs: seq<KV>, key: string)
    ensures Last(pairs, key).Some? ==> KV(key, Last(pairs, key).value) in pairs
    ensures Last(pairs, key).None? ==> forall kv :: kv in pairs ==> kv.key != key
  {
    if pairs != [] && pairs[|pairs| - 1].key != key {
      LastFound(pairs[..|pairs| - 1], key);
      assert pairs == pairs[..|pairs| - 1] + [pairs[|pairs| - 1]];
    }
  }

  lemma {:induction false} InterfacePairsMember(ss: seq<Section>, kv: KV)
    requires kv in InterfacePairs(ss)
    ensures exists s :: s in ss && s.name == "interface" && kv in s.pairs
  {
    var last := ss[|ss| - 1];
    if kv in InterfacePairs(ss[..|ss| - 1]) {
      InterfacePairsMember(ss[..|ss| - 1], kv);
    } else {
      assert last in ss && last.name == "interface" && kv in last.pairs;
    }
  }

  /** A configuration the device parser accepts is accepted by ParseSettings too;
      its MTU is 0 when no [Interface] MTU is given and otherwise the last one,
      within 68..65535. */
  lemma AcceptedHasSettings(lib: Lib, text: string)
    requires Read(lib, text).Some?
    ensures ReadSettings(text).Some?
    ensures var pairs := InterfacePairs(OutlineOf(Items(Split(text, '\n'))).sections);
            match Last(pairs, "mtu")
            case None => ReadSettings(text).value.mtu == 0
            case Some(v) => Atoi(v) == Some(ReadSettings(text).value.mtu) && 68 <= ReadSettings(text).value.mtu <= 65535
  {
    var ss := OutlineOf(Items(Split(text, '\n'))).sections;
    var pairs := InterfacePairs(ss);
    forall kv | kv in pairs && kv.key == "mtu"
      ensures ParseMTU(kv.value).Some?
    {
      InterfacePairsMember(ss, kv);
      var s :| s in ss && s.name == "interface" && kv in s.pairs;
      assert InterfacePairLegal(lib, kv);
    }
    LastFound(pairs, "mtu");
  }

  // ---- what the values of an accepted text mean

  /** The numbers, and "off" in any case. */
  lemma NumbersMean(value: string, n: int)
    ensures ParsePort(value) == Some(n) <==> Atoi(value) == Some(n) && 0 <= n <= 65535
    ensures ParseKeepalive(value) == Some(n) <==> Atoi(value) == Some(n) && 0 <= n
    ensures ParseMTU(value) == Some(n) <==> Atoi(value) == Some(n) && 68 <= n <= 65535
  {
  }

  predicate SaysOff(value: string) {
    && |value| == 3 && (value[0] == 'o' || value[0] == 'O') && (value[1] == 'f' || value[1] == 'F')
    && (value[2] == 'f' || value[2] == 'F')
  }

  lemma FwMarkMeans(lib: Lib, value: string)
    ensures ParseFwMark(lib, value) == if SaysOff(value) then Some(0) else lib.parseUint32(value)
  {
    var low := ToLower(value);
    LowerAt(value);
    assert low == "off" ==> low[0] == 'o' && low[1] == 'f' && low[2] == 'f';
    if SaysOff(value) {
      assert low[0] == 'o' && low[1] == 'f' && low[2] == 'f';
      assert low == "off";
    }
  }

  lemma {:induction false} LowerAt(s: string)
    ensures |ToLower(s)| == |s|
    ensures forall i :: 0 <= i < |s| ==> ToLower(s)[i] == LowerChar(s[i])
  {
    if s != [] {
      LowerAt(s[1..]);
    }
  }

  /** An entry of AllowedIPs: nothing when blank, what parseCIDR gives when it has
      a slash, and a bare address on its own, with all its 32 or 128 bits. */
  predicate Means(lib: Lib, entry: string, nets: seq<Net>) {
    var e := TrimSpace(entry);
    if e == "" then nets == []
    else if '/' in e then |nets| == 1 && lib.parseCIDR(e) == Some(nets[0])
    else
      && |nets| == 1 && lib.parseIP(e).Some? && nets[0].ip == lib.parseIP(e).value.text
      && nets[0].bits == if lib.parseIP(e).value.v4 then 32 else 128
  }

  function Flatten<A>(groups: seq<seq<A>>): seq<A> {
    if groups == [] then [] else groups[0] + Flatten(groups[1..])
  }

  lemma {:induction false} FlattenAppend<A>(a: seq<seq<A>>, b: seq<seq<A>>)
    ensures Flatten(a + b) == Flatten(a) + Flatten(b)
  {
    if a == [] {
      assert a + b == b;
    } else {
      assert (a + b)[0] == a[0] && (a + b)[1..] == a[1..] + b;
      FlattenAppend(a[1..], b);
    }
  }

  lemma {:induction false} EntriesMean(lib: Lib, parts: seq<string>) returns (groups: seq<seq<Net>>)
    requires AllowedIPEntries(lib, parts).Some?
    ensures |groups| == |parts| && forall i :: 0 <= i < |parts| ==> Means(lib, parts[i], groups[i])
    ensures AllowedIPEntries(lib, parts).value == Flatten(groups)
  {
    if parts == [] {
      groups := [];
    } else {
      var rest := EntriesMean(lib, parts[1..]);
      var part := TrimSpace(parts[0]);
      var first := if part == "" then [] else [ParseAllowedIP(lib, part).value];
      groups := [first] + rest;
      assert groups[1..] == rest;
    }
  }

  ghost predicate Readable(lib: Lib, entry: string) {
    exists nets :: Means(lib, entry, nets)
  }

  /** A list is accepted exactly when every entry means something. */
  lemma {:induction false} EntriesAccepted(lib: Lib, parts: seq<string>)
    ensures AllowedIPEntries(lib, parts).Some? <==> forall e :: e in parts ==> Readable(lib, e)
  {
    if parts == [] {
    } else {
      EntriesAccepted(lib, parts[1..]);
      EntryReadable(lib, parts[0]);
      assert forall e :: e in parts <==> e == parts[0] || e in parts[1..];
    }
  }

  lemma EntryReadable(lib: Lib, entry: string)
    ensures Readable(lib, entry) <==> TrimSpace(entry) == "" || ParseAllowedIP(lib, TrimSpace(entry)).Some?
  {
    var e := TrimSpace(entry);
    if e == "" {
      assert Means(lib, entry, []);
    } else if ParseAllowedIP(lib, e).Some? {
      assert Means(lib, entry, [ParseAllowedIP(lib, e).value]);
    }
  }

  /** The comma-separated entries of all lines of a key, line after line. */
  function Entries(pairs: seq<KV>, key: string): seq<string> {
    if pairs == [] then []
    else
      var kv := pairs[|pairs| - 1];
      Entries(pairs[..|pairs| - 1], key) + if kv.key == key then Split(kv.value, ',') else []
  }

  lemma {:induction false} AllowedIPsMean(lib: Lib, pairs: seq<KV>) returns (groups: seq<seq<Net>>)
    requires forall kv :: kv in pairs && kv.key == "allowedips" ==> ParseAllowedIPs(lib, kv.value).Some?
    ensures |groups| == |Entries(pairs, "allowedips")|
    ensures forall i :: 0 <= i < |groups| ==> Means(lib, Entries(pairs, "allowedips")[i], groups[i])
    ensures AllowedIPsOf(lib, pairs) == Flatten(groups)
  {
    if pairs == [] {
      groups := [];
    } else {
      var init, kv := pairs[..|pairs| - 1], pairs[|pairs| - 1];
      assert kv in pairs && forall x :: x in init ==> x in pairs;
      groups := AllowedIPsMean(lib, init);
      if kv.key == "allowedips" {
        var parts := Split(kv.value, ',');
        var more := EntriesMean(lib, parts);
        FlattenAppend(groups, more);
        Joined(lib, Entries(init, "allowedips"), groups, parts, more);
        groups := groups + more;
      }
    }
  }

  lemma Joined(lib: Lib, a: seq<string>, ga: seq<seq<Net>>, b: seq<string>, gb: seq<seq<Net>>)
    requires |a| == |ga| && |b| == |gb|
    requires forall i :: 0 <= i < |a| ==> Means(lib, a[i], ga[i])
    requires forall i :: 0 <= i < |b| ==> Means(lib, b[i], gb[i])
    ensures forall i :: 0 <= i < |a + b| ==> Means(lib, (a + b)[i], (ga + gb)[i])
  {
  }

  lemma AllowedIPsLegal(lib: Lib, kv: KV)
    requires PeerPairLegal(lib, kv) && kv.key == "allowedips"
    ensures ParseAllowedIPs(lib, kv.value).Some?
  {
    assert |"allowedips"| == 10 && |"publickey"| == 9 && |"presharedkey"| == 12 && |"endpoint"| == 8;
  }

  /** The [Peer] sections, in order. */
  function PeerSections(ss: seq<Section>): seq<Section> {
    if ss == [] then []
    else PeerSections(ss[..|ss| - 1]) + if ss[|ss| - 1].name == "peer" then [ss[|ss| - 1]] else []
  }

  lemma {:induction false} PeersAre(lib: Lib, ss: seq<Section>)
    ensures |PeersOf(lib, ss)| == |PeerSections(ss)|
    ensures forall k :: 0 <= k < |PeerSections(ss)| ==>
              && PeerSections(ss)[k] in ss && PeerSections(ss)[k].name == "peer"
              && PeersOf(lib, ss)[k] == PeerOf(lib, PeerSections(ss)[k].pairs)
  {
    if ss != [] {
      PeersAre(lib, ss[..|ss| - 1]);
    }
  }

  /** A peer of an accepted text, by its section: the last value of each key that
      stands for one thing, and all networks of all its AllowedIPs in order. */
  lemma AcceptedPeer(lib: Lib, text: string, k: nat) returns (s: Section, groups: seq<seq<Net>>)
    requires Read(lib, text).Some? && k < |Read(lib, text).value.peers|
    ensures var ss := OutlineOf(Items(Split(text, '\n'))).sections;
            |PeerSections(ss)| == |Read(lib, text).value.peers| && s == PeerSections(ss)[k]
    ensures |groups| == |Entries(s.pairs, "allowedips")|
    ensures forall i :: 0 <= i < |groups| ==> Means(lib, Entries(s.pairs, "allowedips")[i], groups[i])
    ensures var p := Read(lib, text).value.peers[k];
            && p.allowedIPs == Flatten(groups)
            && Last(s.pairs, "publickey").Some? && lib.parseKey(Last(s.pairs, "publickey").value) == Some(p.publicKey)
            && p.presharedKey == Value(Last(s.pairs, "presharedkey"), lib.parseKey)
            && p.endpoint == Value(Last(s.pairs, "endpoint"), lib.resolveEndpoint)
            && p.keepalive == Value(Last(s.pairs, "persistentkeepalive"), ParseKeepalive)
  {
    var ss := OutlineOf(Items(Split(text, '\n'))).sections;
    PeersAre(lib, ss);
    s := PeerSections(ss)[k];
    assert SectionLegal(lib, s);
    PeerKeysLegal(lib, s);
    forall kv | kv in s.pairs && kv.key == "allowedips"
      ensures ParseAllowedIPs(lib, kv.value).Some?
    {
      AllowedIPsLegal(lib, kv);
    }
    groups := AllowedIPsMean(lib, s.pairs);
    LastFound(s.pairs, "publickey");
    PublicKeyLegal(lib, KV("publickey", Last(s.pairs, "publickey").value));
  }

  function Value<A>(v: Option<string>, parse: string -> Option<A>): Option<A> {
    if v.None? then None else parse(v.value)
  }

  lemma PeerKeysLegal(lib: Lib, s: Section)
    requires KeysLegal(lib, s) && s.name == "peer"
    ensures forall kv :: kv in s.pairs ==> PeerPairLegal(lib, kv)
  {
    assert "peer"[0] != "interface"[0];
  }

  lemma PublicKeyLegal(lib: Lib, kv: KV)
    requires PeerPairLegal(lib, kv) && kv.key == "publickey"
    ensures lib.parseKey(kv.value).Some?
  {
    assert |"publickey"| == 9 && |"endpoint"| == 8 && |"allowedips"| == 10 && |"persistentkeepalive"| == 19;
  }

  /** The device of an accepted text, by the pairs of its [Interface] sections. */
  lemma AcceptedDevice(lib: Lib, text: string)
    requires Read(lib, text).Some?
    ensures var pairs := InterfacePairs(OutlineOf(Items(Split(text, '\n'))).sections);
            var d := Read(lib, text).value.device;
            && d.privateKey == Value(Last(pairs, "privatekey"), lib.parseKey)
            && d.listenPort == Value(Last(pairs, "listenport"), ParsePort)
            && d.fwMark == Value(Last(pairs, "fwmark"), v => if SaysOff(v) then Some(0) else lib.parseUint32(v))
  {
    var pairs := InterfacePairs(OutlineOf(Items(Split(text, '\n'))).sections);
    if Last(pairs, "fwmark").Some? {
      FwMarkMeans(lib, Last(pairs, "fwmark").value);
    }
  }

  /** The keys of an [Interface] section, and what is asked of their values. */
  lemma InterfaceKeys(lib: Lib, kv: KV)
    ensures InterfacePairLegal(lib, kv) <==>
            || (kv.key == "privatekey" && lib.parseKey(kv.value).Some?)
            || (kv.key == "listenport" && Atoi(kv.value).Some? && 0 <= Atoi(kv.value).value <= 65535)
            || (kv.key == "fwmark" && (SaysOff(kv.value) || lib.parseUint32(kv.value).Some?))
            || (kv.key == "mtu" && Atoi(kv.value).Some? && 68 <= Atoi(kv.value).value <= 65535)
            || kv.key == "dns" || kv.key == "address" || kv.key == "table" || kv.key == "preup" || kv.key == "postup"
            || kv.key == "predown" || kv.key == "postdown" || kv.key == "saveconfig"
  {
    FwMarkMeans(lib, kv.value);
  }

  /** The keys of a [Peer] section. */
  lemma PeerKeys(lib: Lib, kv: KV)
    ensures PeerPairLegal(lib, kv) <==>
            || ((kv.key == "publickey" || kv.key == "presharedkey") && lib.parseKey(kv.value).Some?)
            || (kv.key == "endpoint" && lib.resolveEndpoint(kv.value).Some?)
            || (kv.key == "allowedips" && forall e :: e in Split(kv.value, ',') ==> Readable(lib, e))
            || (kv.key == "persistentkeepalive" && Atoi(kv.value).Some? && 0 <= Atoi(kv.value).value)
  {
    EntriesAccepted(lib, Split(kv.value, ','));
  }

  /** A DNS entry: nothing when blank, and else itself without the blanks around it. */
  predicate Names(entry: string, servers: seq<string>) {
    servers == if TrimSpace(entry) == "" then [] else [TrimSpace(entry)]
  }

  lemma {:induction false} DNSMeans(parts: seq<string>) returns (groups: seq<seq<string>>)
    ensures |groups| == |parts| && DNSEntries(parts) == Flatten(groups)
    ensures forall i :: 0 <= i < |parts| ==> Names(parts[i], groups[i])
  {
    if parts == [] {
      groups := [];
    } else {
      var rest := DNSMeans(parts[1..]);
      groups := [if TrimSpace(parts[0]) == "" then [] else [TrimSpace(parts[0])]] + rest;
      assert groups[1..] == rest;
    }
  }

  lemma {:induction false} AllDNSMean(pairs: seq<KV>) returns (groups: seq<seq<string>>)
    ensures |groups| == |Entries(pairs, "dns")| && DNSOf(pairs) == Flatten(groups)
    ensures forall i :: 0 <= i < |groups| ==> Names(Entries(pairs, "dns")[i], groups[i])
  {
    if pairs == [] {
      groups := [];
    } else {
      var kv := pairs[|pairs| - 1];
      groups := AllDNSMean(pairs[..|pairs| - 1]);
      if kv.key == "dns" {
        var parts := Split(kv.value, ',');
        var more := DNSMeans(parts);
        FlattenAppend(groups, more);
        groups := groups + more;
      }
    }
  }

  /** The settings are accepted exactly when every MTU of an [Interface] section
      is one; the last stands, and the servers are all entries of all DNS lines. */
  lemma AcceptedSettings(text: string) returns (groups: seq<seq<string>>)
    ensures var pairs := InterfacePairs(OutlineOf(Items(Split(text, '\n'))).sections);
            && (ReadSettings(text).Some? <==>
                  forall kv :: kv in pairs && kv.key == "mtu" ==>
                    Atoi(kv.value).Some? && 68 <= Atoi(kv.value).value <= 65535)
            && |groups| == |Entries(pairs, "dns")|
            && (forall i :: 0 <= i < |groups| ==> Names(Entries(pairs, "dns")[i], groups[i]))
            && (ReadSettings(text).Some? ==>
                  && ReadSettings(text).value.dns == Flatten(groups)
                  && ReadSettings(text).value.mtu
                     == match Value(Last(pairs, "mtu"), Atoi) case Some(n) => n case None => 0)
  {
    var pairs := InterfacePairs(OutlineOf(Items(Split(text, '\n'))).sections);
    groups := AllDNSMean(pairs);
    LastFound(pairs, "mtu");
  }

  /** The last line of a key is the one that counts. */
  lemma {:induction false} LastMeans(pairs: seq<KV>, key: string, i: nat)
    requires i < |pairs| && pairs[i].key == key && forall j :: i < j < |pairs| ==> pairs[j].key != key
    ensures Last(pairs, key) == Some(pairs[i].value)
  {
    if i < |pairs| - 1 {
      LastMeans(pairs[..|pairs| - 1], key, i);
    }
  }

  // ---- what a line says

  /** Comments start with either character. */
  lemma CommentLine(text: string)
    ensures Classify("#" + text) == Blank && Classify(";" + text) == Blank && Classify("") == Blank
  {
    CommentStart('#', text);
    CommentStart(';', text);
    assert TrimSpace("") == "";
  }

  lemma CommentStart(c: char, text: string)
    requires !IsSpace(c)
    ensures TrimSpace([c] + text) != "" && TrimSpace([c] + text)[0] == c
  {
    TrimRightStops([], c, text);
    assert [] + [c] + text == [c] + text;
  }

  lemma HeaderLine(name: string)
    ensures Classify("[" + name + "]") == Header(ToLower(TrimSpace(name)))
  {
    var line := "[" + name + "]";
    assert line[0] == '[' && line[|line| - 1] == ']' && line[1..|line| - 1] == name;
    TrimmedIsFixed(line);
    assert line[|line| - 1..] == "]";
  }

  /** A key and a value around the first "=". */
  lemma PairLine(key: string, value: string)
    requires Trimmed(key) && key != "" && '=' !in key && key[0] != '#' && key[0] != ';' && key[0] != '['
    requires Trimmed(value) && value != ""
    ensures Classify(key + "=" + value) == Pair(KV(ToLower(key), value))
  {
    var line := key + ['='] + value;
    assert line[0] == key[0] && line[|line| - 1] == value[|value| - 1];
    TrimmedIsFixed(line);
    IndexOfFirst(key, '=', value);
    assert line[..|key|] == key && line[|key| + 1..] == value;
    CutLine(line, key, value);
  }

  lemma CutLine(line: string, key: string, value: string)
    requires Trimmed(key) && Trimmed(value) && TrimSpace(line) == line && line != ""
    requires line[0] != '#' && line[0] != ';' && line[0] != '['
    requires IndexOf(line, '=') == |key| < |line| && line[..|key|] == key && line[|key| + 1..] == value
    ensures Classify(line) == Pair(KV(ToLower(key), value))
  {
    TrimmedIsFixed(key);
    TrimmedIsFixed(value);
  }

  /** Anything else is refused. */
  lemma JunkLine(line: string)
    requires Trimmed(line) && line != "" && '=' !in line && line[0] != '#' && line[0] != ';' && line[0] != '['
    ensures Classify(line) == Junk
  {
    TrimmedIsFixed(line);
    forall i | 0 <= i < |line|
      ensures line[i] != '='
    {
      assert line[i] in line;
    }
  }

  // ---- prefixes that can no longer become legal

  /** Something is wrong with the sections that no further line can repair. */
  predicate OutlineBroken(lib: Lib, o: Outline) {
    || o.stray != []
    || (exists i :: 0 <= i < |o.sections| && !KeysLegal(lib, o.sections[i]))
    || (exists i :: 0 <= i < |o.sections| - 1 && !SectionLegal(lib, o.sections[i]))
  }

  predicate Broken(lib: Lib, items: seq<Item>) {
    Junk in items || OutlineBroken(lib, OutlineOf(items))
  }

  lemma OutlineBrokenStep(lib: Lib, o: Outline, item: Item)
    requires OutlineBroken(lib, o)
    ensures OutlineBroken(lib, AddItem(o, item))
  {
    var p := AddItem(o, item);
    if i :| 0 <= i < |o.sections| && !KeysLegal(lib, o.sections[i]) {
      if i == |o.sections| - 1 && item.Pair? {
        assert forall kv :: kv in o.sections[i].pairs ==> kv in p.sections[i].pairs;
      } else {
        assert p.sections[i] == o.sections[i];
      }
      assert !KeysLegal(lib, p.sections[i]);
    }
    if i :| 0 <= i < |o.sections| - 1 && !SectionLegal(lib, o.sections[i]) {
      assert p.sections[i] == o.sections[i];
    }
  }

  lemma OutlineStep(items: seq<Item>, i: nat)
    requires i < |items|
    ensures OutlineOf(items[..i + 1]) == AddItem(OutlineOf(items[..i]), items[i])
    ensures Junk in items[..i + 1] <==> Junk in items[..i] || items[i] == Junk
  {
    assert items[..i + 1][..i] == items[..i];
    assert items[..i + 1] == items[..i] + [items[i]];
  }

  lemma {:induction false} BrokenStays(lib: Lib, items: seq<Item>, k: nat)
    requires k <= |items|
    requires Broken(lib, items[..k])
    ensures !Legal(lib, items)
    decreases |items| - k
  {
    if k == |items| {
      assert items[..k] == items;
      var ss := OutlineOf(items).sections;
      assert forall i :: 0 <= i < |ss| ==> ss[i] in ss;
    } else {
      OutlineStep(items, k);
      if OutlineBroken(lib, OutlineOf(items[..k])) {
        OutlineBrokenStep(lib, OutlineOf(items[..k]), items[k]);
      }
      BrokenStays(lib, items, k + 1);
    }
  }

  // ---- appending text

  lemma {:induction false} ItemsAppend(a: seq<string>, b: seq<string>)
    ensures Items(a + b) == Items(a) + Items(b)
  {
    if a == [] {
      assert a + b == b;
    } else {
      assert (a + b)[1..] == a[1..] + b;
      ItemsAppend(a[1..], b);
    }
  }

  lemma {:induction false} OutlineAppend(a: seq<Item>, b: seq<Item>)
    requires OutlineOf(b).stray == [] || OutlineOf(a).sections == []
    ensures OutlineOf(a + b).stray == OutlineOf(a).stray + OutlineOf(b).stray
    ensures OutlineOf(a + b).sections == OutlineOf(a).sections + OutlineOf(b).sections
  {
    if b == [] {
      assert a + b == a;
    } else {
      var b', item := b[..|b| - 1], b[|b| - 1];
      assert (a + b)[..|a + b| - 1] == a + b' && (a + b)[|a + b| - 1] == item;
      OutlineAppend(a, b');
    }
  }

  lemma {:induction false} SectionsAppend(lib: Lib, a: seq<Section>, b: seq<Section>)
    ensures PeersOf(lib, a + b) == PeersOf(lib, a) + PeersOf(lib, b)
    ensures InterfacePairs(a + b) == InterfacePairs(a) + InterfacePairs(b)
  {
    if b == [] {
      assert a + b == a;
    } else {
      var b' := b[..|b| - 1];
      assert (a + b)[..|a + b| - 1] == a + b';
      SectionsAppend(lib, a, b');
    }
  }

  /** Two texts put one after the other, the second with no pair before its
      first header, are accepted exactly when each is, with the peers of the
      first followed by those of the second. */
  lemma AcceptedTextsConcatenate(lib: Lib, a: string, b: string)
    requires OutlineOf(Items(Split(b, '\n'))).stray == []
    ensures Read(lib, a + ['\n'] + b).Some? <==> Read(lib, a).Some? && Read(lib, b).Some?
    ensures Read(lib, a + ['\n'] + b).Some? ==>
              Read(lib, a + ['\n'] + b).value.peers == Read(lib, a).value.peers + Read(lib, b).value.peers
  {
    SplitAppend(a, '\n', b);
    ItemsAppend(Split(a, '\n'), Split(b, '\n'));
    var ia, ib := Items(Split(a, '\n')), Items(Split(b, '\n'));
    assert Items(Split(a + ['\n'] + b, '\n')) == ia + ib;
    OutlineAppend(ia, ib);
    SectionsAppend(lib, OutlineOf(ia).sections, OutlineOf(ib).sections);
    LegalAppend(lib, ia, ib);
  }

  lemma LegalAppend(lib: Lib, a: seq<Item>, b: seq<Item>)
    requires OutlineOf(b).stray == []
    ensures Legal(lib, a + b) <==> Legal(lib, a) && Legal(lib, b)
  {
    OutlineAppend(a, b);
    var sa, sb := OutlineOf(a).sections, OutlineOf(b).sections;
    assert Junk in a + b <==> Junk in a || Junk in b;
    assert forall s :: s in sa + sb <==> s in sa || s in sb;
  }

  /** Appending one legal [Peer] section appends exactly that peer and leaves
      the device as it was. */
  lemma AppendedPeerSection(lib: Lib, a: string, b: string, pairs: seq<KV>)
    requires Read(lib, a).Some?
    requires Junk !in Items(Split(b, '\n'))
    requires OutlineOf(Items(Split(b, '\n'))) == Outline([], [Section("peer", pairs)])
    requires SectionLegal(lib, Section("peer", pairs))
    ensures Read(lib, a + ['\n'] + b)
         == Some(Config(Read(lib, a).value.device, Read(lib, a).value.peers + [PeerOf(lib, pairs)]))
  {
    SplitAppend(a, '\n', b);
    ItemsAppend(Split(a, '\n'), Split(b, '\n'));
    var ia, ib := Items(Split(a, '\n')), Items(Split(b, '\n'));
    assert Items(Split(a + ['\n'] + b, '\n')) == ia + ib;
    OutlineAppend(ia, ib);
    var sa, sb := OutlineOf(ia).sections, [Section("peer", pairs)];
    SectionsAppend(lib, sa, sb);
    assert sb[..0] == [];
    assert PeersOf(lib, sb) == [PeerOf(lib, pairs)] && InterfacePairs(sb) == [];
    assert InterfacePairs(sa) + [] == InterfacePairs(sa);
  }

  function PeerHeaders(items: seq<Item>): nat {
    if items == [] then 0
    else PeerHeaders(items[..|items| - 1]) + if items[|items| - 1] == Header("peer") then 1 else 0
  }

  /** One peer per [Peer] header. */
  lemma {:induction false} OnePeerPerHeader(lib: Lib, items: seq<Item>)
    ensures |PeersOf(lib, OutlineOf(items).sections)| == PeerHeaders(items)
  {
    if items != [] {
      var before, item := items[..|items| - 1], items[|items| - 1];
      OnePeerPerHeader(lib, before);
      PeersAfterItem(lib, OutlineOf(before), item);
    }
  }

  lemma PeersAfterItem(lib: Lib, o: Outline, item: Item)
    ensures |PeersOf(lib, AddItem(o, item).sections)| ==
            |PeersOf(lib, o.sections)| + if item == Header("peer") then 1 else 0
  {
    var p := AddItem(o, item);
    if item.Header? || (item.Pair? && o.sections != []) {
      assert p.sections[..|p.sections| - 1] == if item.Header? then o.sections else o.sections[..|o.sections| - 1];
    }
  }

  // ---- the device parser

  lemma LastSnoc(pairs: seq<KV>, kv: KV, key: string)
    ensures Last(pairs + [kv], key) == if kv.key == key then Some(kv.value) else Last(pairs, key)
  {
    assert (pairs + [kv])[..|pairs|] == pairs;
  }

  lemma DeviceSnoc(lib: Lib, pairs: seq<KV>, kv: KV)
    ensures var d, e := DeviceOf(lib, pairs), DeviceOf(lib, pairs + [kv]);
            && e.privateKey == (if kv.key == "privatekey" then lib.parseKey(kv.value) else d.privateKey)
            && e.listenPort == (if kv.key == "listenport" then ParsePort(kv.value) else d.listenPort)
            && e.fwMark == if kv.key == "fwmark" then ParseFwMark(lib, kv.value) else d.fwMark
  {
    LastSnoc(pairs, kv, "privatekey");
    LastSnoc(pairs, kv, "listenport");
    LastSnoc(pairs, kv, "fwmark");
  }

  lemma PeerSnoc(lib: Lib, pairs: seq<KV>, kv: KV)
    requires PeerPairLegal(lib, kv)
    ensures var p, q := PeerOf(lib, pairs), PeerOf(lib, pairs + [kv]);
            && q.publicKey == (if kv.key == "publickey" then lib.parseKey(kv.value).value else p.publicKey)
            && q.presharedKey == (if kv.key == "presharedkey" then lib.parseKey(kv.value) else p.presharedKey)
            && q.endpoint == (if kv.key == "endpoint" then lib.resolveEndpoint(kv.value) else p.endpoint)
            && q.allowedIPs == (if kv.key == "allowedips" then p.allowedIPs + ParseAllowedIPs(lib, kv.value).value
                                else p.allowedIPs)
            && q.keepalive == if kv.key == "persistentkeepalive" then ParseKeepalive(kv.value) else p.keepalive
  {
    LastSnoc(pairs, kv, "publickey");
    LastSnoc(pairs, kv, "presharedkey");
    LastSnoc(pairs, kv, "endpoint");
    LastSnoc(pairs, kv, "persistentkeepalive");
    assert (pairs + [kv])[..|pairs|] == pairs;
  }

  /** The device configuration under construction. */
  class DeviceConfig {
    var privateKey: Option<string>
    var listenPort: Option<int>
    var fwMark: Option<nat>

    function Value(): Device
      reads this
    {
      Device(privateKey, listenPort, fwMark)
    }

    constructor ()
      ensures Value() == Device(None, None, None)
    {
      privateKey, listenPort, fwMark := None, None, None;
    }

    /** applyInterfaceKey: fails exactly on an illegal pair; pairs are the
        [Interface] pairs applied so far. */
    method ApplyInterfaceKey(lib: Lib, key: string, value: string, ghost pairs: seq<KV>) returns (ok: bool)
      requires Value() == DeviceOf(lib, pairs)
      modifies this
      ensures ok == InterfacePairLegal(lib, KV(key, value))
      ensures Value() == if ok then DeviceOf(lib, pairs + [KV(key, value)]) else old(Value())
    {
      DeviceSnoc(lib, pairs, KV(key, value));
      if key == "privatekey" {
        var k := lib.parseKey(value);
        if k.None? {
          return false;
        }
        privateKey := k;
      } else if key == "listenport" {
        var port := Atoi(value);
        if port.None? || port.value < 0 || port.value > 65535 {
          return false;
        }
        listenPort := port;
      } else if key == "fwmark" {
        var mark := ParseFwMark(lib, value);
        if mark.None? {
          return false;
        }
        fwMark := mark;
      } else if key == "mtu" {
        if ParseMTU(value).None? {
          return false;
        }
      } else if !IgnoredInterfaceKey(key) {
        return false;
      }
      return true;
    }
  }

  /** A peer under construction. */
  class PeerConfig {
    var publicKey: string
    var presharedKey: Option<string>
    var endpoint: Option<string>
    var allowedIPs: seq<Net>
    var keepalive: Option<int>

    function Value(): Peer
      reads this
    {
      Peer(publicKey, presharedKey, endpoint, allowedIPs, keepalive)
    }

    constructor ()
      ensures Value() == Peer("", None, None, [], None)
    {
      publicKey, presharedKey, endpoint, allowedIPs, keepalive := "", None, None, [], None;
    }

    /** applyPeerKey: fails exactly on an illegal pair; pairs are the section's
        pairs applied so far. */
    method ApplyPeerKey(lib: Lib, key: string, value: string, ghost pairs: seq<KV>) returns (ok: bool)
      requires Value() == PeerOf(lib, pairs)
      modifies this
      ensures ok == PeerPairLegal(lib, KV(key, value))
      ensures Value() == if ok then PeerOf(lib, pairs + [KV(key, value)]) else old(Value())
    {
      if PeerPairLegal(lib, KV(key, value)) {
        PeerSnoc(lib, pairs, KV(key, value));
      }
      if key == "publickey" {
        var k := lib.parseKey(value);
        if k.None? {
          return false;
        }
        publicKey := k.value;
      } else if key == "presharedkey" {
        var k := lib.parseKey(value);
        if k.None? {
          return false;
        }
        presharedKey := k;
      } else if key == "endpoint" {
        var addr := lib.resolveEndpoint(value);
        if addr.None? {
          return false;
        }
        endpoint := addr;
      } else if key == "allowedips" {
        var nets := CollectAllowedIPs(lib, Split(value, ','));
        if nets.None? {
          return false;
        }
        allowedIPs := allowedIPs + nets.value;
      } else if key == "persistentkeepalive" {
        var secs := Atoi(value);
        if secs.None? || secs.value < 0 {
          return false;
        }
        keepalive := secs;
      } else {
        return false;
      }
      return true;
    }
  }

  /** Where the one-pass walk stands after the lines outlined by o. */
  ghost predicate Walked(
      lib: Lib, o: Outline, device: Device, peers: seq<Peer>, section: string, cur: Option<Peer>, hasKey: bool)
  {
    && o.stray == []
    && device == DeviceOf(lib, InterfacePairs(o.sections))
    && if o.sections == [] then section == "" && cur.None? && !hasKey && peers == []
       else
         var n := |o.sections| - 1;
         var last := o.sections[n];
         && section == last.name
         && KeysLegal(lib, last)
         && (forall i :: 0 <= i < n ==> SectionLegal(lib, o.sections[i]))
         && if section == "peer" then
              && cur == Some(PeerOf(lib, last.pairs))
              && hasKey == Last(last.pairs, "publickey").Some?
              && peers == PeersOf(lib, o.sections[..n])
            else cur.None? && !hasKey && peers == PeersOf(lib, o.sections)
  }

  function Flushed(peers: seq<Peer>, cur: Option<Peer>): seq<Peer> {
    if cur.Some? then peers + [cur.value] else peers
  }

  lemma WalkHeader(
      lib: Lib, o: Outline, device: Device, peers: seq<Peer>, section: string, cur: Option<Peer>, hasKey: bool,
      name: string)
    requires Walked(lib, o, device, peers, section, cur, hasKey)
    ensures (cur.Some? ==> hasKey) && (name == "interface" || name == "peer") ==>
              Walked(lib, AddItem(o, Header(name)), device, Flushed(peers, cur), name,
                     if name == "peer" then Some(PeerOf(lib, [])) else None, false)
    ensures (cur.Some? && !hasKey) || (name != "interface" && name != "peer") ==>
              OutlineBroken(lib, AddItem(o, Header(name)))
  {
    var p := AddItem(o, Header(name));
    var n := |o.sections|;
    assert p.sections[..n] == o.sections;
    assert p.sections[n] == Section(name, []);
    assert InterfacePairs(o.sections) + [] == InterfacePairs(o.sections);
    if cur.Some? && !hasKey {
      assert !SectionLegal(lib, p.sections[n - 1]);
    } else if name != "interface" && name != "peer" {
      assert !KeysLegal(lib, p.sections[n]);
    }
  }

  /** What one more line adds to the [Interface] pairs. */
  function NewPairs(o: Outline, item: Item): seq<KV> {
    if item.Pair? && o.sections != [] && o.sections[|o.sections| - 1].name == "interface" then [item.kv] else []
  }

  lemma InterfacePairsStep(o: Outline, item: Item)
    ensures InterfacePairs(AddItem(o, item).sections) == InterfacePairs(o.sections) + NewPairs(o, item)
  {
    var p := AddItem(o, item);
    var n := |o.sections|;
    if item.Header? {
      assert p.sections[..n] == o.sections;
    } else if item.Pair? && n > 0 {
      assert p.sections[..n - 1] == o.sections[..n - 1];
    }
  }

  /** A pair outside any section, or one its section does not allow, cannot be repaired. */
  lemma WalkPairBreaks(
      lib: Lib, o: Outline, device: Device, peers: seq<Peer>, section: string, cur: Option<Peer>, hasKey: bool, kv: KV)
    requires Walked(lib, o, device, peers, section, cur, hasKey)
    requires section == "interface" ==> !InterfacePairLegal(lib, kv)
    requires section == "peer" ==> !PeerPairLegal(lib, kv)
    ensures OutlineBroken(lib, AddItem(o, Pair(kv)))
  {
    var p := AddItem(o, Pair(kv));
    if o.sections != [] {
      var n := |o.sections| - 1;
      assert kv in p.sections[n].pairs;
      assert !KeysLegal(lib, p.sections[n]);
    }
  }

  lemma PairExtends(lib: Lib, o: Outline, kv: KV)
    requires o.sections != []
    ensures var p := AddItem(o, Pair(kv));
            var n := |o.sections| - 1;
            && |p.sections| == n + 1 && p.stray == o.stray
            && p.sections[..n] == o.sections[..n]
            && p.sections[n] == Section(o.sections[n].name, o.sections[n].pairs + [kv])
            && PeersOf(lib, p.sections)
               == PeersOf(lib, o.sections[..n])
                  + if o.sections[n].name == "peer" then [PeerOf(lib, p.sections[n].pairs)] else []
    ensures InterfacePairs(AddItem(o, Pair(kv)).sections) == InterfacePairs(o.sections) + NewPairs(o, Pair(kv))
  {
    InterfacePairsStep(o, Pair(kv));
    var p := AddItem(o, Pair(kv));
    assert p.sections[..|o.sections| - 1] == o.sections[..|o.sections| - 1];
  }

  lemma WalkInterfacePair(
      lib: Lib, o: Outline, device: Device, peers: seq<Peer>, cur: Option<Peer>, hasKey: bool, kv: KV, device': Device)
    requires Walked(lib, o, device, peers, "interface", cur, hasKey)
    requires InterfacePairLegal(lib, kv) && device' == DeviceOf(lib, InterfacePairs(o.sections) + [kv])
    ensures Walked(lib, AddItem(o, Pair(kv)), device', peers, "interface", cur, hasKey)
  {
    PairExtends(lib, o, kv);
    EarlierStay(o, kv);
  }

  lemma WalkPeerPair(
      lib: Lib, o: Outline, device: Device, peers: seq<Peer>, cur: Option<Peer>, hasKey: bool, kv: KV, cur': Peer)
    requires Walked(lib, o, device, peers, "peer", cur, hasKey)
    requires PeerPairLegal(lib, kv) && cur' == PeerOf(lib, o.sections[|o.sections| - 1].pairs + [kv])
    ensures Walked(lib, AddItem(o, Pair(kv)), device, peers, "peer", Some(cur'), hasKey || kv.key == "publickey")
  {
    PairExtends(lib, o, kv);
    var n := |o.sections| - 1;
    LastSnoc(o.sections[n].pairs, kv, "publickey");
    EarlierStay(o, kv);
  }

  lemma EarlierStay(o: Outline, kv: KV)
    requires o.sections != []
    ensures forall i :: 0 <= i < |o.sections| - 1 ==> AddItem(o, Pair(kv)).sections[i] == o.sections[i]
  {
  }

  lemma WalkEnds(
      lib: Lib, items: seq<Item>, device: Device, peers: seq<Peer>, section: string, cur: Option<Peer>, hasKey: bool)
    requires Junk !in items
    requires Walked(lib, OutlineOf(items), device, peers, section, cur, hasKey)
    ensures ReadItems(lib, items) == if cur.Some? && !hasKey then None else Some(Config(device, Flushed(peers, cur)))
  {
    var ss := OutlineOf(items).sections;
    if ss != [] {
      AllButLast(lib, ss);
    }
  }

  lemma AllButLast(lib: Lib, ss: seq<Section>)
    requires ss != []
    ensures (forall s :: s in ss ==> SectionLegal(lib, s)) <==>
            SectionLegal(lib, ss[|ss| - 1]) && forall i :: 0 <= i < |ss| - 1 ==> SectionLegal(lib, ss[i])
  {
    assert forall i :: 0 <= i < |ss| ==> ss[i] in ss;
  }

  /** How both walks take a line apart. */
  method Cut(lines: seq<string>, i: nat) returns (item: Item)
    requires i < |lines|
    ensures item == Items(lines)[i]
  {
    ItemAt(lines, i);
    var line := TrimSpace(lines[i]);
    if line == "" || HasPrefix(line, "#") || HasPrefix(line, ";") {
      return Blank;
    }
    if HasPrefix(line, "[") && HasSuffix(line, "]") {
      return Header(ToLower(TrimSpace(line[1..|line| - 1])));
    }
    var eq := IndexOf(line, '=');
    if eq == |line| {
      return Junk;
    }
    return Pair(KV(ToLower(TrimSpace(line[..eq])), TrimSpace(line[eq + 1..])));
  }

  function InProgress(cur: PeerConfig?): Option<Peer>
    reads cur
  {
    if cur == null then None else Some(cur.Value())
  }

  /** The walk's switch on the current section. */
  method ApplyPair(
      lib: Lib, cfg: DeviceConfig, cur: PeerConfig?, section: string, hasKey: bool, kv: KV,
      ghost o: Outline, ghost peers: seq<Peer>)
    returns (ok: bool, hasKey': bool)
    requires Walked(lib, o, cfg.Value(), peers, section, InProgress(cur), hasKey)
    modifies cfg, cur
    ensures ok ==> Walked(lib, AddItem(o, Pair(kv)), cfg.Value(), peers, section, InProgress(cur), hasKey')
    ensures !ok ==> OutlineBroken(lib, AddItem(o, Pair(kv)))
  {
    hasKey' := hasKey;
    ghost var device, before := cfg.Value(), InProgress(cur);
    if section == "interface" {
      ok := cfg.ApplyInterfaceKey(lib, kv.key, kv.value, InterfacePairs(o.sections));
      if ok {
        WalkInterfacePair(lib, o, device, peers, before, hasKey, kv, cfg.Value());
      }
    } else if section == "peer" {
      ok := cur.ApplyPeerKey(lib, kv.key, kv.value, o.sections[|o.sections| - 1].pairs);
      if ok {
        WalkPeerPair(lib, o, device, peers, before, hasKey, kv, cur.Value());
      }
      if kv.key == "publickey" {
        hasKey' := true;
      }
    } else {
      ok := false;
    }
    if !ok {
      WalkPairBreaks(lib, o, device, peers, section, before, hasKey, kv);
    }
  }

  /** A header ends the peer in progress, which must have a key, and begins a
      section of a known name. */
  method EnterSection(
      lib: Lib, ghost device: Device, peers: seq<Peer>, ghost section: string, cur: PeerConfig?, hasKey: bool,
      name: string, ghost o: Outline)
    returns (ok: bool, peers': seq<Peer>, cur': PeerConfig?, hasKey': bool)
    requires Walked(lib, o, device, peers, section, InProgress(cur), hasKey)
    ensures ok ==> Walked(lib, AddItem(o, Header(name)), device, peers', name, InProgress(cur'), hasKey')
    ensures !ok ==> OutlineBroken(lib, AddItem(o, Header(name)))
    ensures cur' != null ==> fresh(cur') || cur' == cur
  {
    WalkHeader(lib, o, device, peers, section, InProgress(cur), hasKey, name);
    ok, peers', cur', hasKey' := false, peers, cur, hasKey;
    if (name != "interface" && name != "peer") || (cur != null && !hasKey) {
      return;
    }
    if cur != null {
      peers' := peers + [cur.Value()];
      cur' := null;
      hasKey' := false;
    }
    if name == "peer" {
      cur' := new PeerConfig();
    }
    ok := true;
  }

  /** parse: one pass over the lines, equal to the section-wise reading. */
  method Parse(lib: Lib, text: string) returns (r: Option<Config>)
    ensures r == Read(lib, text)
  {
    r := Walk(lib, Split(text, '\n'));
  }

  method Walk(lib: Lib, lines: seq<string>) returns (r: Option<Config>)
    ensures r == ReadItems(lib, Items(lines))
  {
    var cfg := new DeviceConfig();
    var peers: seq<Peer> := [];
    var section := "";
    var cur: PeerConfig? := null;
    var hasKey := false;
    ghost var items := Items(lines);
    ghost var o := Outline([], []);

    for i := 0 to |lines|
      invariant fresh(cfg) && (cur != null ==> fresh(cur))
      invariant Junk !in items[..i] && o == OutlineOf(items[..i])
      invariant Walked(lib, o, cfg.Value(), peers, section, InProgress(cur), hasKey)
    {
      OutlineStep(items, i);
      var item := Cut(lines, i);
      var ok;
      ok, peers, section, cur, hasKey := TakeLine(lib, cfg, item, peers, section, cur, hasKey, o);
      if !ok {
        BrokenStays(lib, items, i + 1);
        return None;
      }
      o := AddItem(o, item);
    }
    assert items[..|lines|] == items;
    r := Finish(lib, cfg, peers, section, cur, hasKey, items);
  }

  /** One line of the walk. */
  method TakeLine(
      lib: Lib, cfg: DeviceConfig, item: Item, peers: seq<Peer>, section: string, cur: PeerConfig?, hasKey: bool,
      ghost o: Outline)
    returns (ok: bool, peers': seq<Peer>, section': string, cur': PeerConfig?, hasKey': bool)
    requires Walked(lib, o, cfg.Value(), peers, section, InProgress(cur), hasKey)
    modifies cfg, cur
    ensures ok ==> item != Junk
                   && Walked(lib, AddItem(o, item), cfg.Value(), peers', section', InProgress(cur'), hasKey')
    ensures !ok ==> item == Junk || OutlineBroken(lib, AddItem(o, item))
    ensures cur' != null ==> fresh(cur') || cur' == cur
  {
    ok, peers', section', cur', hasKey' := true, peers, section, cur, hasKey;
    match item {
      case Blank =>
      case Junk => ok := false;
      case Header(name) =>
        ok, peers', cur', hasKey' := EnterSection(lib, cfg.Value(), peers, section, cur, hasKey, name, o);
        section' := name;
      case Pair(kv) => ok, hasKey' := ApplyPair(lib, cfg, cur, section, hasKey, kv, o, peers);
    }
  }

  /** The end of the text ends the peer in progress. */
  method Finish(
      lib: Lib, cfg: DeviceConfig, peers: seq<Peer>, ghost section: string, cur: PeerConfig?, hasKey: bool,
      ghost items: seq<Item>)
    returns (r: Option<Config>)
    requires Junk !in items && Walked(lib, OutlineOf(items), cfg.Value(), peers, section, InProgress(cur), hasKey)
    ensures r == ReadItems(lib, items)
  {
    WalkEnds(lib, items, cfg.Value(), peers, section, InProgress(cur), hasKey);
    var all := peers;
    if cur != null {
      if !hasKey {
        return None;
      }
      all := all + [cur.Value()];
    }
    return Some(Config(cfg.Value(), all));
  }

  // ---- the settings walk

  lemma SettingsSnoc(pairs: seq<KV>, kv: KV)
    ensures SettingsOf(pairs + [kv]).dns == SettingsOf(pairs).dns + if kv.key == "dns" then ParseDNS(kv.value) else []
    ensures kv.key == "mtu" && ParseMTU(kv.value).Some? ==> SettingsOf(pairs + [kv]).mtu == ParseMTU(kv.value).value
    ensures kv.key != "mtu" ==> SettingsOf(pairs + [kv]).mtu == SettingsOf(pairs).mtu
  {
    LastSnoc(pairs, kv, "mtu");
    assert (pairs + [kv])[..|pairs|] == pairs;
  }

  lemma {:induction false} IllegalMTUStays(items: seq<Item>, k: nat)
    requires k <= |items|
    requires !MTUsLegal(InterfacePairs(OutlineOf(items[..k]).sections))
    ensures !MTUsLegal(InterfacePairs(OutlineOf(items).sections))
    decreases |items| - k
  {
    if k == |items| {
      assert items[..k] == items;
    } else {
      OutlineStep(items, k);
      InterfacePairsStep(OutlineOf(items[..k]), items[k]);
      IllegalMTUStays(items, k + 1);
    }
  }

  /** Where the settings walk stands after the lines outlined by o. */
  ghost predicate SettingsAt(o: Outline, inInterface: bool, mtu: int, dns: seq<string>) {
    && inInterface == (o.sections != [] && o.sections[|o.sections| - 1].name == "interface")
    && MTUsLegal(InterfacePairs(o.sections))
    && Settings(mtu, dns) == SettingsOf(InterfacePairs(o.sections))
  }

  lemma SettingsSkip(o: Outline, inInterface: bool, mtu: int, dns: seq<string>, item: Item)
    requires SettingsAt(o, inInterface, mtu, dns)
    requires item.Pair? ==> !inInterface
    ensures SettingsAt(AddItem(o, item), if item.Header? then item.name == "interface" else inInterface, mtu, dns)
  {
    InterfacePairsStep(o, item);
    assert InterfacePairs(o.sections) + [] == InterfacePairs(o.sections);
  }

  lemma SettingsPair(
      o: Outline, mtu: int, dns: seq<string>, kv: KV, mtu': int, dns': seq<string>)
    requires SettingsAt(o, true, mtu, dns)
    requires if kv.key == "mtu" then ParseMTU(kv.value) == Some(mtu') else mtu' == mtu
    requires dns' == dns + if kv.key == "dns" then ParseDNS(kv.value) else []
    ensures SettingsAt(AddItem(o, Pair(kv)), true, mtu', dns')
  {
    InterfacePairsStep(o, Pair(kv));
    SettingsSnoc(InterfacePairs(o.sections), kv);
  }

  lemma SettingsBreak(o: Outline, mtu: int, dns: seq<string>, kv: KV)
    requires SettingsAt(o, true, mtu, dns)
    requires kv.key == "mtu" && ParseMTU(kv.value).None?
    ensures !MTUsLegal(InterfacePairs(AddItem(o, Pair(kv)).sections))
  {
    InterfacePairsStep(o, Pair(kv));
    assert kv in InterfacePairs(o.sections) + [kv];
  }

  /** ParseSettings: its own pass over the lines, equal to the section-wise
      reading of MTU and DNS. */
  method ParseSettings(text: string) returns (r: Option<Settings>)
    ensures r == ReadSettings(text)
  {
    var mtu: int := 0;
    var dns: seq<string> := [];
    var inInterface := false;
    var lines := Split(text, '\n');
    ghost var items := Items(lines);

    for i := 0 to |lines|
      invariant SettingsAt(OutlineOf(items[..i]), inInterface, mtu, dns)
    {
      ghost var o := OutlineOf(items[..i]);
      OutlineStep(items, i);
      var item := Cut(lines, i);
      if item.Header? {
        SettingsSkip(o, inInterface, mtu, dns, item);
        inInterface := item.name == "interface";
      } else if item.Pair? && inInterface {
        ghost var before, dnsBefore := mtu, dns;
        if item.kv.key == "mtu" {
          var parsed := ParseMTU(item.kv.value);
          if parsed.None? {
            SettingsBreak(o, mtu, dns, item.kv);
            IllegalMTUStays(items, i + 1);
            return None;
          }
          mtu := parsed.value;
        } else if item.kv.key == "dns" {
          var more := CollectDNS(Split(item.kv.value, ','));
          dns := dns + more;
        }
        SettingsPair(o, before, dnsBefore, item.kv, mtu, dns);
      } else {
        SettingsSkip(o, inInterface, mtu, dns, item);
      }
    }
    assert items[..|lines|] == items;
    return Some(Settings(mtu, dns));
  }
}
