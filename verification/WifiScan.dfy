/** Scan reduction and config escaping (pkg/wifi): one pass over an iw dump
    against grouping it by BSS and keeping the strongest of each SSID, and the
    escape that quotes an SSID or passphrase for wpa_supplicant. */
module WifiScan {
  import opened Strings

  datatype Network = Network(ssid: string, bssid: string, signal: int, security: string, frequency: int)

  // ---- what one line says

  datatype Line =
    | Bss(bssid: string)
    | Name(ssid: string)
    | Signal(dbm: Option<int>)
    | Freq(mhz: Option<int>)
    | Rsn
    | Wpa
    | Wep
    | Suites(sae: bool, psk: bool)
    | Other

  function Run(s: string, inClass: char -> bool): string {
    if s == [] || !inClass(s[0]) then [] else [s[0]] + Run(s[1..], inClass)
  }

  /** The first non-empty run of the class that directly follows prefix. */
  function RunAfter(s: string, prefix: string, inClass: char -> bool): string {
    if s == [] then []
    else if HasPrefix(s, prefix) && Run(s[|prefix|..], inClass) != [] then Run(s[|prefix|..], inClass)
    else RunAfter(s[1..], prefix, inClass)
  }

  function HexValue(c: char): Option<nat> {
    if '0' <= c <= '9' then Some(c as nat - '0' as nat)
    else if 'a' <= c <= 'f' then Some(c as nat - 'a' as nat + 10)
    else if 'A' <= c <= 'F' then Some(c as nat - 'A' as nat + 10)
    else None
  }

  /** Each backslash, x and two hex digits become that one character. */
  function DecodeSSID(s: string): (r: string)
    ensures s != [] ==> r != []
  {
    if s == [] then []
    else if |s| >= 4 && s[0] == '\\' && s[1] == 'x' && HexValue(s[2]).Some? && HexValue(s[3]).Some?
    then [(16 * HexValue(s[2]).value + HexValue(s[3]).value) as char] + DecodeSSID(s[4..])
    else [s[0]] + DecodeSSID(s[1..])
  }

  /** line is trimmed; parseFloat gives the whole part of a number that parses. */
  function Classify(line: string, parseFloat: string -> Option<int>): Line {
    if HasPrefix(line, "BSS ") then Bss(RunAfter(line, "BSS ", c => '0' <= c <= '9' || 'a' <= c <= 'f' || c == ':'))
    else if HasPrefix(line, "SSID: ") then Name(DecodeSSID(TrimSpace(line[6..])))
    else if HasPrefix(line, "signal: ") then
      var raw := RunAfter(line, "signal: ", c => '0' <= c <= '9' || c == '-' || c == '.');
      Signal(if raw == [] then None else parseFloat(raw))
    else if HasPrefix(line, "freq: ") then Freq(Atoi(line[6..]))
    else if Contains(line, "RSN:") then Rsn
    else if Contains(line, "WPA:") then Wpa
    else if Contains(line, "WEP:") then Wep
    else if Contains(line, "Authentication suites:") then Suites(Contains(line, "SAE"), Contains(line, "PSK"))
    else Other
  }

  function Reader(parseFloat: string -> Option<int>): string -> Line {
    line => Classify(TrimSpace(line), parseFloat)
  }

  function ReadAll(lines: seq<string>, read: string -> Line): (ks: seq<Line>)
    ensures |ks| == |lines|
    ensures forall i :: 0 <= i < |lines| ==> ks[i] == read(lines[i])
  {
    if lines == [] then [] else [read(lines[0])] + ReadAll(lines[1..], read)
  }

  function LinesOf(output: string, parseFloat: string -> Option<int>): seq<Line> {
    ReadAll(Split(output, '\n'), Reader(parseFloat))
  }

  // ---- the block-wise reading

  /** The lines under one BSS header: the last value of each kind stands. */
  function NameIn(b: seq<Line>): string {
    if b == [] then "" else if b[|b| - 1].Name? then b[|b| - 1].ssid else NameIn(b[..|b| - 1])
  }

  function SignalIn(b: seq<Line>): int {
    if b == [] then 0
    else if b[|b| - 1].Signal? && b[|b| - 1].dbm.Some? then b[|b| - 1].dbm.value
    else SignalIn(b[..|b| - 1])
  }

  function FreqIn(b: seq<Line>): int {
    if b == [] then 0
    else if b[|b| - 1].Freq? && b[|b| - 1].mhz.Some? then b[|b| - 1].mhz.value
    else FreqIn(b[..|b| - 1])
  }

  predicate Marker(l: Line) {
    l.Rsn? || l.Wpa? || l.Wep?
  }

  /** The last marker of the block is an RSN section. */
  predicate RsnOpen(b: seq<Line>) {
    b != [] && if Marker(b[|b| - 1]) then b[|b| - 1].Rsn? else RsnOpen(b[..|b| - 1])
  }

  function SecurityIn(b: seq<Line>): string {
    if b == [] then "Open"
    else
      var before := b[..|b| - 1];
      match b[|b| - 1]
      case Rsn => "WPA2"
      case Wpa => "WPA"
      case Wep => "WEP"
      case Suites(sae, psk) =>
        if sae && RsnOpen(before) then if psk then "WPA2/WPA3" else "WPA3" else SecurityIn(before)
      case _ => SecurityIn(before)
  }

  /** A BSS header and the lines up to the next one. */
  datatype Block = Block(bssid: string, lines: seq<Line>)

  function NetworkOf(b: Block): Network {
    Network(NameIn(b.lines), b.bssid, SignalIn(b.lines), SecurityIn(b.lines), FreqIn(b.lines))
  }

  function Grown(blocks: seq<Block>, l: Line): seq<Block> {
    if l.Bss? then blocks + [Block(l.bssid, [])]
    else if blocks == [] then []
    else
      var n := |blocks| - 1;
      blocks[..n] + [blocks[n].(lines := blocks[n].lines + [l])]
  }

  function Blocks(ks: seq<Line>): seq<Block> {
    if ks == [] then [] else Grown(Blocks(ks[..|ks| - 1]), ks[|ks| - 1])
  }

  function NetworksOf(blocks: seq<Block>): seq<Network> {
    seq(|blocks|, i requires 0 <= i < |blocks| => NetworkOf(blocks[i]))
  }

  function Networks(ks: seq<Line>): seq<Network> {
    NetworksOf(Blocks(ks))
  }

  function Flatten(blocks: seq<Block>): seq<Line> {
    if blocks == [] then []
    else
      var n := |blocks| - 1;
      Flatten(blocks[..n]) + [Bss(blocks[n].bssid)] + blocks[n].lines
  }

  ghost predicate HeaderFree(blocks: seq<Block>) {
    forall b :: b in blocks ==> NoHeader(b.lines)
  }

  lemma GrownHeaderFree(blocks: seq<Block>, l: Line)
    requires HeaderFree(blocks)
    ensures HeaderFree(Grown(blocks, l))
  {
    var g := Grown(blocks, l);
    if !l.Bss? && blocks != [] {
      var n := |blocks| - 1;
      assert blocks[n] in blocks;
      forall b | b in g
        ensures NoHeader(b.lines)
      {
        var i :| 0 <= i < |g| && g[i] == b;
        assert i < n ==> g[i] == blocks[i];
      }
    }
  }

  /** The grouping is the right one: no block holds a header, and written out
      in order the blocks are the dump again. */
  lemma {:induction false} BlocksPartition(ks: seq<Line>)
    requires ks != [] && ks[0].Bss?
    ensures Flatten(Blocks(ks)) == ks && Blocks(ks) != [] && HeaderFree(Blocks(ks))
  {
    var n := |ks| - 1;
    var before := ks[..n];
    assert ks == before + [ks[n]];
    if n > 0 {
      BlocksPartition(before);
    } else {
      assert Blocks(before) == [] && Flatten([]) == before;
    }
    GrownHeaderFree(Blocks(before), ks[n]);
    assert Blocks(ks) == Grown(Blocks(before), ks[n]);
  }

  lemma {:induction false} BlocksAppend(a: seq<Line>, b: seq<Line>)
    requires b != [] && b[0].Bss?
    ensures Blocks(a + b) == Blocks(a) + Blocks(b) && Blocks(b) != []
    decreases |b|
  {
    var n := |b| - 1;
    var before := b[..n];
    assert (a + b)[..|a + b| - 1] == a + before && (a + b)[|a + b| - 1] == b[n];
    if n == 0 {
      assert a + before == a;
    } else {
      BlocksAppend(a, before);
    }
    GrownAppend(Blocks(a), Blocks(before), b[n]);
  }

  lemma GrownAppend(a: seq<Block>, b: seq<Block>, l: Line)
    requires b != [] || l.Bss?
    ensures Grown(a + b, l) == a + Grown(b, l)
  {
    if l.Bss? {
      assert a + b + [Block(l.bssid, [])] == a + (b + [Block(l.bssid, [])]);
    } else {
      var n := |b| - 1;
      assert (a + b)[..|a + b| - 1] == a + b[..n];
    }
  }

  /** Appending a second dump appends its networks. */
  lemma NetworksAppend(a: seq<Line>, b: seq<Line>)
    requires b != [] && b[0].Bss?
    ensures Networks(a + b) == Networks(a) + Networks(b)
  {
    BlocksAppend(a, b);
  }

  /** A line that writes into the current network. */
  predicate Writes(l: Line) {
    l.Name? || (l.Signal? && l.dbm.Some?) || (l.Freq? && l.mhz.Some?)
  }

  predicate NoHeader(ks: seq<Line>) {
    forall j :: 0 <= j < |ks| ==> !ks[j].Bss?
  }

  /** A value with no header before it is written through a nil network. */
  predicate Orphan(ks: seq<Line>) {
    exists i :: 0 <= i < |ks| && Writes(ks[i]) && NoHeader(ks[..i])
  }

  /** Concretely: an SSID before any header crashes it, whatever follows. */
  lemma LoneSSID(rest: seq<string>, parseFloat: string -> Option<int>)
    ensures Orphan(ReadAll(["SSID: x"] + rest, Reader(parseFloat)))
  {
    NamesSSID(parseFloat);
  }

  lemma NamesSSID(parseFloat: string -> Option<int>)
    ensures Reader(parseFloat)("SSID: x").Name?
  {
    TrimmedIsFixed("SSID: x");
    assert "SSID: x"[0] != "BSS "[0];
  }

  /** A dump that starts with a header never crashes the parser. */
  lemma HeaderFirst(ks: seq<Line>)
    requires ks != [] && ks[0].Bss?
    ensures !Orphan(ks)
  {
    forall i | 0 < i < |ks|
      ensures !NoHeader(ks[..i])
    {
      assert ks[..i][0].Bss?;
    }
  }

  // ---- what a line of the dump says

  /** line is one of the value lines, which are recognised by how they start. */
  predicate ValueLine(line: string) {
    "BSS " <= line || "SSID: " <= line || "signal: " <= line || "freq: " <= line
  }

  lemma StartsDiffer(line: string)
    ensures "SSID: " <= line ==> !("BSS " <= line)
    ensures "signal: " <= line ==> !("BSS " <= line) && !("SSID: " <= line)
    ensures "freq: " <= line ==> !("BSS " <= line) && !("SSID: " <= line) && !("signal: " <= line)
  {
    assert "BSS "[0] == 'B' && "SSID: "[0] == 'S' && "signal: "[0] == 's' && "freq: "[0] == 'f';
  }

  /** Any other line counts by what it contains, RSN before WPA before WEP. */
  lemma SectionLine(line: string, parseFloat: string -> Option<int>)
    requires !ValueLine(line)
    ensures var r := Classify(line, parseFloat);
            && (r.Rsn? <==> Inside("RSN:", line))
            && (r.Wpa? <==> Inside("WPA:", line) && !Inside("RSN:", line))
            && (r.Wep? <==> Inside("WEP:", line) && !Inside("RSN:", line) && !Inside("WPA:", line))
  {
    ContainsIff(line, "RSN:");
    ContainsIff(line, "WPA:");
    ContainsIff(line, "WEP:");
  }

  /** The suites of a section count by whether SAE and PSK are among them. */
  lemma SuitesLine(line: string, parseFloat: string -> Option<int>)
    requires !ValueLine(line) && !Inside("RSN:", line) && !Inside("WPA:", line) && !Inside("WEP:", line)
    ensures Classify(line, parseFloat)
         == if Inside("Authentication suites:", line) then Suites(Inside("SAE", line), Inside("PSK", line)) else Other
  {
    SectionLine(line, parseFloat);
    ContainsIff(line, "Authentication suites:");
    ContainsIff(line, "SAE");
    ContainsIff(line, "PSK");
  }

  lemma {:induction false} RunIs(run: string, rest: string, inClass: char -> bool)
    requires (forall i :: 0 <= i < |run| ==> inClass(run[i])) && (rest != [] ==> !inClass(rest[0]))
    ensures Run(run + rest, inClass) == run
  {
    if run == [] {
      assert run + rest == rest;
    } else {
      assert (run + rest)[0] == run[0] && (run + rest)[1..] == run[1..] + rest;
      RunIs(run[1..], rest, inClass);
    }
  }

  lemma RunAfterIs(prefix: string, run: string, rest: string, inClass: char -> bool)
    requires prefix != [] && run != []
    requires (forall i :: 0 <= i < |run| ==> inClass(run[i])) && (rest != [] ==> !inClass(rest[0]))
    ensures RunAfter(prefix + run + rest, prefix, inClass) == run
  {
    var s := prefix + run + rest;
    assert s[|prefix|..] == run + rest;
    RunIs(run, rest, inClass);
  }

  predicate HexOrColon(c: char) {
    '0' <= c <= '9' || 'a' <= c <= 'f' || c == ':'
  }

  lemma BssLine(mac: string, rest: string, parseFloat: string -> Option<int>)
    requires mac != "" && (forall i :: 0 <= i < |mac| ==> HexOrColon(mac[i])) && (rest != "" ==> !HexOrColon(rest[0]))
    ensures Classify("BSS " + mac + rest, parseFloat) == Bss(mac)
  {
    RunAfterIs("BSS ", mac, rest, c => '0' <= c <= '9' || 'a' <= c <= 'f' || c == ':');
  }

  predicate Numeric(c: char) {
    '0' <= c <= '9' || c == '-' || c == '.'
  }

  /** A signal line gives the whole part of its number, and none when it has no readable one. */
  lemma SignalLine(n: string, rest: string, parseFloat: string -> Option<int>)
    requires n != "" && (forall i :: 0 <= i < |n| ==> Numeric(n[i])) && (rest != "" ==> !Numeric(rest[0]))
    ensures Classify("signal: " + n + rest, parseFloat) == Signal(parseFloat(n))
  {
    StartsDiffer("signal: " + n + rest);
    RunAfterIs("signal: ", n, rest, c => '0' <= c <= '9' || c == '-' || c == '.');
  }

  /** A frequency line is all of a number or nothing. */
  lemma FreqLine(text: string, parseFloat: string -> Option<int>)
    ensures Classify("freq: " + text, parseFloat) == Freq(Atoi(text))
  {
    var line := "freq: " + text;
    StartsDiffer(line);
    assert line[6..] == text;
  }

  lemma NameLine(text: string, parseFloat: string -> Option<int>)
    ensures Classify("SSID: " + text, parseFloat) == Name(DecodeSSID(TrimSpace(text)))
  {
    var line := "SSID: " + text;
    StartsDiffer(line);
    assert line[6..] == text;
  }

  lemma HexMeans(v: nat)
    requires v < 16
    ensures HexValue("0123456789abcdef"[v]) == Some(v) == HexValue("0123456789ABCDEF"[v])
  {
  }

  predicate HexDigit(c: char) {
    '0' <= c <= '9' || 'a' <= c <= 'f' || 'A' <= c <= 'F'
  }

  /** A backslash that no x and two hex digits follow stands as it is. */
  lemma NoEscape(rest: string)
    requires |rest| < 3 || rest[0] != 'x' || !HexDigit(rest[1]) || !HexDigit(rest[2])
    ensures DecodeSSID(['\\'] + rest) == ['\\'] + DecodeSSID(rest)
  {
    assert (['\\'] + rest)[1..] == rest;
  }

  /** The dump is read line by line, each without the white space around it. */
  lemma FirstLine(line: string, rest: string, parseFloat: string -> Option<int>)
    requires '\n' !in line
    ensures LinesOf(line + ['\n'] + rest, parseFloat)
         == [Classify(TrimSpace(line), parseFloat)] + LinesOf(rest, parseFloat)
    ensures LinesOf(line, parseFloat) == [Classify(TrimSpace(line), parseFloat)]
  {
    SplitAppend(line, '\n', rest);
    SplitWhole(line, '\n');
    assert ([line] + Split(rest, '\n'))[1..] == Split(rest, '\n');
    assert [line][1..] == [];
  }

  /** An escaped character is the one with that code. */
  lemma DecodedName(h: nat, l: nat, rest: string)
    requires h < 16 && l < 16
    ensures DecodeSSID(['\\', 'x', "0123456789abcdef"[h], "0123456789abcdef"[l]] + rest)
         == [(16 * h + l) as char] + DecodeSSID(rest)
  {
    HexMeans(h);
    HexMeans(l);
    var s := ['\\', 'x', "0123456789abcdef"[h], "0123456789abcdef"[l]] + rest;
    assert s[4..] == rest;
  }

  /** A name without a backslash stands as it is. */
  lemma {:induction false} DecodedPlain(s: string)
    requires '\\' !in s
    ensures DecodeSSID(s) == s
  {
    if s != [] {
      assert s == [s[0]] + s[1..];
      DecodedPlain(s[1..]);
    }
  }

  /** Of the lines of a block that can be read, the last of each kind stands. */
  lemma {:induction false} LastStands(b: seq<Line>, i: nat)
    requires i < |b|
    ensures b[i].Name? && (forall j :: i < j < |b| ==> !b[j].Name?) ==> NameIn(b) == b[i].ssid
    ensures b[i].Signal? && b[i].dbm.Some? && (forall j :: i < j < |b| ==> !(b[j].Signal? && b[j].dbm.Some?)) ==>
              SignalIn(b) == b[i].dbm.value
    ensures b[i].Freq? && b[i].mhz.Some? && (forall j :: i < j < |b| ==> !(b[j].Freq? && b[j].mhz.Some?)) ==>
              FreqIn(b) == b[i].mhz.value
  {
    if i < |b| - 1 {
      LastStands(b[..|b| - 1], i);
    }
  }

  lemma {:induction false} NothingStands(b: seq<Line>)
    ensures (forall j :: 0 <= j < |b| ==> !(b[j].Signal? && b[j].dbm.Some?)) ==> SignalIn(b) == 0
    ensures (forall j :: 0 <= j < |b| ==> !(b[j].Freq? && b[j].mhz.Some?)) ==> FreqIn(b) == 0
  {
    if b != [] {
      NothingStands(b[..|b| - 1]);
    }
  }

  // ---- what the block-wise reading means

  lemma {:induction false} RsnOpenIs(b: seq<Line>, m: nat)
    requires m < |b| && Marker(b[m]) && forall j :: m < j < |b| ==> !Marker(b[j])
    ensures RsnOpen(b) == b[m].Rsn?
  {
    if m < |b| - 1 {
      RsnOpenIs(b[..|b| - 1], m);
    }
  }

  /** Only the last of the RSN, WPA and WEP lines counts; under WPA and WEP
      nothing after it does, and under RSN only the last SAE suite after it. */
  lemma {:induction false} SecurityDecided(b: seq<Line>, m: nat, t: nat)
    requires m < |b| && Marker(b[m]) && forall j :: m < j < |b| ==> !Marker(b[j])
    requires m <= t < |b| && forall j :: t < j < |b| ==> !(b[j].Suites? && b[j].sae)
    requires t > m ==> b[t].Suites? && b[t].sae
    ensures b[m].Wpa? ==> SecurityIn(b) == "WPA"
    ensures b[m].Wep? ==> SecurityIn(b) == "WEP"
    ensures b[m].Rsn? && t == m ==> SecurityIn(b) == "WPA2"
    ensures b[m].Rsn? && t > m ==> SecurityIn(b) == if b[t].psk then "WPA2/WPA3" else "WPA3"
  {
    var n := |b| - 1;
    var before := b[..n];
    if m < n {
      RsnOpenIs(before, m);
      if t < n {
        SecurityDecided(before, m, t);
      } else if !b[m].Rsn? {
        var u := LastSuite(before, m);
        SecurityDecided(before, m, u);
      }
    }
  }

  lemma {:induction false} LastSuite(b: seq<Line>, m: nat) returns (t: nat)
    requires m < |b|
    ensures m <= t < |b| && (t > m ==> b[t].Suites? && b[t].sae)
    ensures forall j :: t < j < |b| ==> !(b[j].Suites? && b[j].sae)
  {
    t := |b| - 1;
    while t > m && !(b[t].Suites? && b[t].sae)
      invariant m <= t < |b|
      invariant forall j :: t < j < |b| ==> !(b[j].Suites? && b[j].sae)
    {
      t := t - 1;
    }
  }

  lemma {:induction false} NoMarkerIsOpen(b: seq<Line>)
    ensures (forall j :: 0 <= j < |b| ==> !Marker(b[j])) ==> SecurityIn(b) == "Open" && !RsnOpen(b)
    ensures SecurityIn(b) != ""
  {
    if b != [] {
      NoMarkerIsOpen(b[..|b| - 1]);
    }
  }

  /** A block has no name exactly when it has no SSID line with a value. */
  lemma {:induction false} NamelessIffNoLine(b: seq<Line>)
    requires forall l :: l in b && l.Name? ==> l.ssid != ""
    ensures NameIn(b) == "" <==> forall l :: l in b ==> !l.Name?
  {
    if b != [] {
      NamelessIffNoLine(b[..|b| - 1]);
      assert b == b[..|b| - 1] + [b[|b| - 1]];
    }
  }

  lemma NamesAreNotEmpty(text: string, parseFloat: string -> Option<int>)
    requires Trimmed(text) && Classify(text, parseFloat).Name?
    ensures Classify(text, parseFloat).ssid != ""
  {
    var tail := text[6..];
    assert |text| > 6 by {
      assert "SSID: "[5] == ' ' == text[5];
    }
    assert !IsSpace(tail[|tail| - 1]);
    TrimLeftKeepsLast(tail);
    assert TrimSpace(tail) == TrimRight(TrimLeft(tail));
  }

  lemma {:induction false} TrimLeftKeepsLast(s: string)
    requires s != [] && !IsSpace(s[|s| - 1])
    ensures TrimLeft(s) != [] && TrimRight(TrimLeft(s)) != []
  {
    if IsSpace(s[0]) {
      TrimLeftKeepsLast(s[1..]);
    }
  }

  // ---- strongest per SSID

  /** ns[i] is the strongest of its SSID, and the first of those. */
  ghost predicate IsBest(ns: seq<Network>, i: nat) {
    && i < |ns| && ns[i].ssid != ""
    && forall j :: 0 <= j < |ns| && ns[j].ssid == ns[i].ssid ==>
         ns[j].signal <= ns[i].signal && (j < i ==> ns[j].signal < ns[i].signal)
  }

  ghost predicate Kept(n: Network, ns: seq<Network>) {
    exists i: nat :: IsBest(ns, i) && ns[i] == n
  }

  predicate Seen(ssid: string, ns: seq<Network>) {
    ssid != "" && exists i :: 0 <= i < |ns| && ns[i].ssid == ssid
  }

  predicate DistinctNames(ns: seq<Network>) {
    forall i, j :: 0 <= i < j < |ns| ==> ns[i].ssid != ns[j].ssid
  }

  /** One entry per SSID, each the strongest BSS, strongest first. */
  ghost predicate IsReduction(out: seq<Network>, ns: seq<Network>) {
    && Descending(out)
    && DistinctNames(out)
    && (forall n :: n in out <==> Kept(n, ns))
  }

  lemma BestIsUnique(ns: seq<Network>, i: nat, j: nat)
    requires IsBest(ns, i) && IsBest(ns, j) && ns[i].ssid == ns[j].ssid
    ensures i == j
  {
  }

  /** Every SSID of the dump has a strongest BSS, so none is lost. */
  lemma {:induction false} BestExists(ns: seq<Network>, ssid: string) returns (i: nat)
    requires Seen(ssid, ns)
    ensures IsBest(ns, i) && ns[i].ssid == ssid
    decreases |ns|
  {
    var n := |ns| - 1;
    var before := ns[..n];
    if Seen(ssid, before) {
      i := BestExists(before, ssid);
      if ns[n].ssid == ssid && ns[n].signal > ns[i].signal {
        i := n;
      }
    } else {
      i := n;
      assert forall j :: 0 <= j < n ==> before[j].ssid != ssid;
    }
  }

  lemma BestIsKept(ns: seq<Network>, ssid: string)
    ensures Seen(ssid, ns) ==> exists n :: Kept(n, ns) && n.ssid == ssid
  {
    if Seen(ssid, ns) {
      var i := BestExists(ns, ssid);
      assert Kept(ns[i], ns);
    }
  }

  /** The reduction is determined up to the order of equally strong entries:
      neither map order nor an unstable sort can change what it holds. */
  lemma ReductionIsDetermined(a: seq<Network>, b: seq<Network>, ns: seq<Network>)
    requires IsReduction(a, ns) && IsReduction(b, ns)
    ensures multiset(a) == multiset(b)
  {
    forall n: Network
      ensures multiset(a)[n] == multiset(b)[n]
    {
      OnceEach(a, n);
      OnceEach(b, n);
    }
  }

  lemma {:induction false} OnceEach(a: seq<Network>, n: Network)
    requires DistinctNames(a)
    ensures multiset(a)[n] == if n in a then 1 else 0
  {
    if a != [] {
      OnceEach(a[1..], n);
      assert a == [a[0]] + a[1..];
    }
  }

  // ---- the pass itself

  ghost predicate Holds(best: map<string, Network>, ns: seq<Network>) {
    forall s :: if s in best then Kept(best[s], ns) && best[s].ssid == s else !Seen(s, ns)
  }

  function Keep(best: map<string, Network>, n: Network): map<string, Network> {
    if n.ssid != "" && (n.ssid !in best || n.signal > best[n.ssid].signal) then best[n.ssid := n] else best
  }

  lemma KeepStep(best: map<string, Network>, ns: seq<Network>, n: Network)
    requires Holds(best, ns)
    ensures Holds(Keep(best, n), ns + [n])
  {
    var more := ns + [n];
    var next := Keep(best, n);
    forall s
      ensures if s in next then Kept(next[s], more) && next[s].ssid == s else !Seen(s, more)
    {
      if s == n.ssid && s in next && (s !in best || n.signal > best[s].signal) {
        if s in best {
          var i: nat :| IsBest(ns, i) && ns[i] == best[s];
          assert forall j :: 0 <= j < |ns| && ns[j].ssid == s ==> ns[j].signal <= ns[i].signal;
        } else {
          assert !Seen(s, ns);
        }
        assert IsBest(more, |ns|);
      } else if s in next {
        var i: nat :| IsBest(ns, i) && ns[i] == best[s];
        assert IsBest(more, i);
      } else {
        assert !Seen(s, ns);
      }
    }
  }

  predicate Descending(ns: seq<Network>) {
    forall i, j :: 0 <= i < j < |ns| ==> ns[i].signal >= ns[j].signal
  }

  lemma InsertAt(sorted: seq<Network>, n: Network, k: nat)
    requires k <= |sorted| && Descending(sorted)
    requires k > 0 ==> sorted[k - 1].signal >= n.signal
    requires k < |sorted| ==> sorted[k].signal < n.signal
    ensures Descending(sorted[..k] + [n] + sorted[k..])
  {
  }

  lemma InsertKeeps(sorted: seq<Network>, n: Network, k: nat)
    requires k <= |sorted|
    ensures multiset(sorted[..k] + [n] + sorted[k..]) == multiset(sorted) + multiset{n}
  {
    assert sorted == sorted[..k] + sorted[k..];
  }

  method Insert(sorted: seq<Network>, n: Network) returns (out: seq<Network>)
    requires Descending(sorted)
    ensures Descending(out) && multiset(out) == multiset(sorted) + multiset{n}
  {
    var k := |sorted|;
    while k > 0 && sorted[k - 1].signal < n.signal
      invariant 0 <= k <= |sorted|
      invariant k < |sorted| ==> sorted[k].signal < n.signal
    {
      k := k - 1;
    }
    InsertAt(sorted, n, k);
    InsertKeeps(sorted, n, k);
    out := sorted[..k] + [n] + sorted[k..];
  }

  /** sort.Slice: some order of the same entries, strongest first. */
  method SortBySignal(ns: seq<Network>) returns (out: seq<Network>)
    ensures Descending(out) && multiset(out) == multiset(ns)
  {
    out := [];
    for i := 0 to |ns|
      invariant Descending(out) && multiset(out) == multiset(ns[..i])
    {
      out := Insert(out, ns[i]);
      assert ns[..i + 1] == ns[..i] + [ns[i]];
    }
    assert ns[..|ns|] == ns;
  }

  /** The loop over the map, in whatever order it iterates. */
  method Collect(best: map<string, Network>, ghost ns: seq<Network>) returns (out: seq<Network>)
    requires Holds(best, ns)
    ensures DistinctNames(out)
    ensures forall n :: n in out <==> Kept(n, ns)
  {
    out := [];
    var rest := best.Keys;
    while rest != {}
      invariant rest <= best.Keys
      invariant forall n :: n in out <==> n.ssid in best.Keys - rest && n == best[n.ssid]
      invariant DistinctNames(out)
      decreases rest
    {
      var s :| s in rest;
      assert forall i :: 0 <= i < |out| ==> out[i] in out;
      out := out + [best[s]];
      rest := rest - {s};
    }
    forall n
      ensures n in out <==> Kept(n, ns)
    {
      if Kept(n, ns) {
        var i: nat :| IsBest(ns, i) && ns[i] == n;
        assert Seen(n.ssid, ns);
        var j: nat :| IsBest(ns, j) && ns[j] == best[n.ssid];
        BestIsUnique(ns, i, j);
      }
    }
  }

  lemma TwiceCounts(b: seq<Network>, i: nat, j: nat)
    requires i < j < |b|
    ensures b[i] == b[j] ==> multiset(b)[b[i]] >= 2
  {
    var head, tail := b[..j], b[j..];
    assert b == head + tail;
    assert head[i] == b[i] && b[i] in multiset(head);
    assert tail[0] == b[j] && b[j] in multiset(tail);
    assert multiset(b) == multiset(head) + multiset(tail);
  }

  lemma SortingKeepsEntries(a: seq<Network>, b: seq<Network>)
    requires multiset(a) == multiset(b) && DistinctNames(a)
    ensures DistinctNames(b) && forall n :: n in a <==> n in b
  {
    forall n
      ensures n in a <==> n in b
    {
      assert n in a <==> n in multiset(a);
      assert n in b <==> n in multiset(b);
    }
    forall i, j | 0 <= i < j < |b|
      ensures b[i].ssid != b[j].ssid
    {
      assert b[i] in b && b[j] in b;
      OnceEach(a, b[i]);
      TwiceCounts(b, i, j);
    }
  }

  lemma BlocksStep(ks: seq<Line>, i: nat)
    requires i < |ks|
    ensures Blocks(ks[..i + 1]) == Grown(Blocks(ks[..i]), ks[i])
  {
    assert ks[..i + 1][..i] == ks[..i];
  }

  /** One more line in the current block changes at most one of its values. */
  lemma LineStep(b: Block, l: Line)
    ensures var n, m := NetworkOf(b), NetworkOf(b.(lines := b.lines + [l]));
            && m.bssid == n.bssid
            && m.ssid == (if l.Name? then l.ssid else n.ssid)
            && m.signal == (if l.Signal? && l.dbm.Some? then l.dbm.value else n.signal)
            && m.frequency == (if l.Freq? && l.mhz.Some? then l.mhz.value else n.frequency)
            && m.security == (match l
                              case Rsn => "WPA2"
                              case Wpa => "WPA"
                              case Wep => "WEP"
                              case Suites(sae, psk) =>
                                if sae && RsnOpen(b.lines) then if psk then "WPA2/WPA3" else "WPA3" else n.security
                              case _ => n.security)
    ensures RsnOpen(b.lines + [l]) == if Marker(l) then l.Rsn? else RsnOpen(b.lines)
  {
    assert (b.lines + [l])[..|b.lines|] == b.lines;
  }

  /** parseScanResults; None is the nil dereference. */
  method ParseScanResults(output: string, parseFloat: string -> Option<int>) returns (r: Option<seq<Network>>)
    ensures r.None? <==> Orphan(LinesOf(output, parseFloat))
    ensures r.Some? ==> IsReduction(r.value, Networks(LinesOf(output, parseFloat)))
  {
    var lines := Split(output, '\n');
    r := Reduce(lines, Reader(parseFloat), LinesOf(output, parseFloat));
  }

  /** What the pass has at hand is the last of the blocks read so far. */
  ghost predicate Current(current: Network, security: string, inRSN: bool, b: Block) {
    current.(security := security) == NetworkOf(b) && inRSN == RsnOpen(b.lines)
  }

  /** The lines of a block, one at a time. */
  method ReadLine(line: Line, net: Network, sec: string, rsn: bool, ghost b: Block)
    returns (current: Network, security: string, inRSN: bool)
    requires !line.Bss? && Current(net, sec, rsn, b)
    ensures Current(current, security, inRSN, b.(lines := b.lines + [line]))
  {
    current, security, inRSN := net, sec, rsn;
    LineStep(b, line);
    match line {
      case Name(ssid) => current := current.(ssid := ssid);
      case Signal(dbm) =>
        if dbm.Some? {
          current := current.(signal := dbm.value);
        }
      case Freq(mhz) =>
        if mhz.Some? {
          current := current.(frequency := mhz.value);
        }
      case Rsn => security, inRSN := "WPA2", true;
      case Wpa => security, inRSN := "WPA", false;
      case Wep => security, inRSN := "WEP", false;
      case Suites(sae, psk) =>
        if inRSN {
          if sae && psk {
            security := "WPA2/WPA3";
          } else if sae {
            security := "WPA3";
          }
        }
      case _ =>
    }
  }

  /** A finished block goes into the map when it is named and stronger than what is there. */
  method Save(best: map<string, Network>, net: Network, ghost ns: seq<Network>) returns (next: map<string, Network>)
    requires Holds(best, ns)
    ensures Holds(next, ns + [net])
  {
    KeepStep(best, ns, net);
    next := Keep(best, net);
  }

  lemma NetworksStep(done: seq<Block>, b: Block)
    ensures NetworksOf(done + [b]) == NetworksOf(done) + [NetworkOf(b)]
  {
  }

  lemma HeaderStep(ks: seq<Line>, i: nat)
    requires i < |ks|
    ensures NoHeader(ks[..i + 1]) == (NoHeader(ks[..i]) && !ks[i].Bss?)
  {
    assert ks[..i + 1] == ks[..i] + [ks[i]];
    assert ks[..i + 1][i] == ks[i];
    assert forall j :: 0 <= j < i ==> ks[..i][j] == ks[..i + 1][j];
  }

  /** Its loop over the lines. */
  method Reduce(lines: seq<string>, read: string -> Line, ghost ks: seq<Line>) returns (r: Option<seq<Network>>)
    requires |ks| == |lines| && forall i :: 0 <= i < |lines| ==> ks[i] == read(lines[i])
    ensures r.None? <==> Orphan(ks)
    ensures r.Some? ==> IsReduction(r.value, Networks(ks))
  {
    var best: map<string, Network> := map[];
    var current: Option<Network> := None;
    var security, inRSN := "", false;
    ghost var done: seq<Block> := [];
    ghost var b := Block("", []);
    for i := 0 to |lines|
      invariant Holds(best, NetworksOf(done))
      invariant forall j :: 0 <= j < i && Writes(ks[j]) ==> !NoHeader(ks[..j])
      invariant current.None? ==> done == [] && Blocks(ks[..i]) == [] && NoHeader(ks[..i])
      invariant current.Some? ==> Blocks(ks[..i]) == done + [b] && !NoHeader(ks[..i])
      invariant current.Some? ==> Current(current.value, security, inRSN, b)
    {
      var line := read(lines[i]);
      BlocksStep(ks, i);
      HeaderStep(ks, i);
      if line.Bss? {
        if current.Some? {
          best := Save(best, current.value.(security := security), NetworksOf(done));
          NetworksStep(done, b);
          done := done + [b];
        }
        current, security, inRSN := Some(Network("", line.bssid, 0, "", 0)), "Open", false;
        b := Block(line.bssid, []);
      } else if current.None? {
        if Writes(line) {
          return None;
        }
      } else {
        var net;
        net, security, inRSN := ReadLine(line, current.value, security, inRSN, b);
        current := Some(net);
        b := b.(lines := b.lines + [line]);
      }
    }
    assert ks[..|ks|] == ks;
    if current.Some? {
      best := Save(best, current.value.(security := security), NetworksOf(done));
      NetworksStep(done, b);
    }
    var networks := Collect(best, Networks(ks));
    var out := SortBySignal(networks);
    SortingKeepsEntries(networks, out);
    r := Some(out);
  }

  ghost predicate IsSecurityOf(security: string, ssid: string, ns: seq<Network>) {
    if security == "" then !Seen(ssid, ns) else exists n :: Kept(n, ns) && n.ssid == ssid && n.security == security
  }

  /** findSecurityInScan: what the strongest BSS of that SSID uses; output is
      None when the command failed, the result when the parser crashes. */
  method FindSecurityInScan(ssid: string, output: Option<string>, parseFloat: string -> Option<int>)
    returns (r: Option<string>)
    ensures r.None? <==> output.Some? && Orphan(LinesOf(output.value, parseFloat))
    ensures output.None? ==> r == Some("")
    ensures output.Some? && r.Some? ==>
              IsSecurityOf(r.value, ssid, Networks(LinesOf(output.value, parseFloat)))
  {
    if output.None? {
      return Some("");
    }
    var networks := ParseScanResults(output.value, parseFloat);
    if networks.None? {
      return None;
    }
    var security := FindSecurity(ssid, networks.value, LinesOf(output.value, parseFloat));
    r := Some(security);
  }

  method FindSecurity(ssid: string, networks: seq<Network>, ghost ks: seq<Line>) returns (r: string)
    requires IsReduction(networks, Networks(ks))
    ensures IsSecurityOf(r, ssid, Networks(ks))
  {
    ghost var ns := Networks(ks);
    for i := 0 to |networks|
      invariant forall j :: 0 <= j < i ==> networks[j].ssid != ssid
    {
      var net := networks[i];
      if net.ssid == ssid {
        assert net in networks;
        KeptIsSecured(net, ks);
        return net.security;
      }
    }
    BestIsKept(ns, ssid);
    r := "";
  }

  lemma KeptIsSecured(n: Network, ks: seq<Line>)
    requires Kept(n, Networks(ks))
    ensures n.security != "" && Seen(n.ssid, Networks(ks))
  {
    var i: nat :| IsBest(Networks(ks), i) && Networks(ks)[i] == n;
    NoMarkerIsOpen(Blocks(ks)[i].lines);
  }

  // ---- escaping

  /** escapeWPAString: four replacements, one after the other. */
  function Escape(s: string): string {
    ReplaceChar(ReplaceChar(ReplaceChar(ReplaceChar(s, '\\', "\\\\"), '"', "\\\""), '\n', "\\n"), '\r', "\\r")
  }

  function EscapeChar(c: char): string {
    if c == '\\' then "\\\\"
    else if c == '"' then "\\\""
    else if c == '\n' then "\\n"
    else if c == '\r' then "\\r"
    else [c]
  }

  lemma {:induction false} ReplaceAppend(a: string, b: string, c: char, repl: string)
    ensures ReplaceChar(a + b, c, repl) == ReplaceChar(a, c, repl) + ReplaceChar(b, c, repl)
  {
    if a == [] {
      assert a + b == b;
    } else {
      assert (a + b)[0] == a[0] && (a + b)[1..] == a[1..] + b;
      ReplaceAppend(a[1..], b, c, repl);
    }
  }

  lemma EscapeOne(c: char)
    ensures Escape([c]) == EscapeChar(c)
  {
    if c == '\\' || c == '"' || c == '\n' || c == '\r' {
      ReplaceTwo('\\', '\\', '"', "\\\"");
      ReplaceTwo('\\', '\\', '\n', "\\n");
      ReplaceTwo('\\', '\\', '\r', "\\r");
      ReplaceTwo('\\', '"', '\n', "\\n");
      ReplaceTwo('\\', '"', '\r', "\\r");
      ReplaceTwo('\\', 'n', '\r', "\\r");
    }
  }

  lemma ReplaceTwo(a: char, b: char, c: char, repl: string)
    requires a != c && b != c
    ensures ReplaceChar([a, b], c, repl) == [a, b]
  {
    assert [a, b][1..] == [b] && [b][1..] == [];
    assert ReplaceChar([b], c, repl) == [b] + ReplaceChar([], c, repl);
  }

  /** The order of the four replacements is right: together they treat each
      character on its own. */
  lemma EscapeStep(s: string)
    requires s != []
    ensures Escape(s) == EscapeChar(s[0]) + Escape(s[1..])
  {
    var a, b := [s[0]], s[1..];
    assert s == a + b;
    ReplaceAppend(a, b, '\\', "\\\\");
    var a1, b1 := ReplaceChar(a, '\\', "\\\\"), ReplaceChar(b, '\\', "\\\\");
    ReplaceAppend(a1, b1, '"', "\\\"");
    var a2, b2 := ReplaceChar(a1, '"', "\\\""), ReplaceChar(b1, '"', "\\\"");
    ReplaceAppend(a2, b2, '\n', "\\n");
    var a3, b3 := ReplaceChar(a2, '\n', "\\n"), ReplaceChar(b2, '\n', "\\n");
    ReplaceAppend(a3, b3, '\r', "\\r");
    EscapeOne(s[0]);
  }

  /** Reads a quoted value whose opening quote is already behind: the value and
      what follows the closing quote, or None when the value is cut off. */
  function ReadQuoted(s: string): Option<(string, string)> {
    if s == [] || s[0] == '\n' || s[0] == '\r' then None
    else if s[0] == '"' then Some(([], s[1..]))
    else if s[0] == '\\' then
      if |s| == 1 then None
      else
        match ReadQuoted(s[2..])
        case None => None
        case Some((value, rest)) =>
          Some(([if s[1] == 'n' then '\n' else if s[1] == 'r' then '\r' else s[1]] + value, rest))
    else
      match ReadQuoted(s[1..])
      case None => None
      case Some((value, rest)) => Some(([s[0]] + value, rest))
  }

  /** A quoted value gives back exactly what was escaped and ends exactly at
      its own closing quote, whatever follows. */
  lemma {:induction false} EscapedReadsBack(s: string, rest: string)
    ensures ReadQuoted(Escape(s) + "\"" + rest) == Some((s, rest))
    decreases |s|
  {
    if s == [] {
      assert Escape(s) + "\"" + rest == "\"" + rest;
    } else {
      EscapeStep(s);
      var tail := Escape(s[1..]) + "\"" + rest;
      var text := EscapeChar(s[0]) + tail;
      assert Escape(s) + "\"" + rest == text;
      EscapedReadsBack(s[1..], rest);
      if |EscapeChar(s[0])| == 2 {
        assert text[2..] == tail;
      } else {
        assert text[1..] == tail;
      }
      assert s == [s[0]] + s[1..];
    }
  }

  /** Different values never share an escaped form. */
  lemma EscapeIsInjective(a: string, b: string)
    requires Escape(a) == Escape(b)
    ensures a == b
  {
    EscapedReadsBack(a, []);
    EscapedReadsBack(b, []);
  }
}
