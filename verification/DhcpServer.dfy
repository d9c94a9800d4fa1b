/** The sharing DHCP server of pkg/dhcp: started by one process and stopped by
    another, which knows only what the state file tells it. */
module DhcpServer {
  import opened Strings
  import opened Firewall

  datatype NATState = NATState(active: bool, outInterface: string, reason: string)

  const NO_NAT := NATState(false, "", "")

  /** addressesValid: gateway, range and DNS servers pass validation. */
  datatype ServerConfig = ServerConfig(iface: string, addressesValid: bool, requireNAT: bool)

  /** The shared state: the sysctl, the firewall, the server's files and process. */
  datatype Host = Host(
    ipForward: string,
    rules: seq<Rule>,
    stateFile: Option<string>,
    pidFile: Option<string>,
    dnsmasq: bool)

  /** What a manager remembers. */
  datatype Mem = Mem(config: Option<string>, out: string, prev: string, nat_: NATState)

  const FRESH := Mem(None, "", "", NO_NAT)

  /** How the foreign parts of one command turn out: among them how many rules
      can be installed, which cannot be deleted, and the text of a sharing failure. */
  datatype Env = Env(
    linkOk: bool, addressOk: bool, configFileOk: bool, dnsmasqOk: bool, pid: string,
    readable: bool, writable: bool, uplink: string, iptables: bool, installs: nat, stuck: set<Rule>,
    reason: string, saveOk: bool, pidReadable: bool, killOk: bool)

  datatype Outcome = Outcome(host: Host, mem: Mem, ok: bool)

  predicate ValidConfig(c: ServerConfig) {
    c.iface != "" && c.addressesValid
    && forall i :: 0 <= i < |c.iface| ==> c.iface[i] !in {' ', '\t', '\n', '\r', '/'}
  }

  predicate Running(h: Host) {
    h.pidFile.Some? && TrimSpace(h.pidFile.value) != "" && h.dnsmasq
  }

  predicate ValidPid(text: string) {
    Atoi(TrimSpace(text)).Some? && Atoi(TrimSpace(text)).value > 0
  }

  // ---- the pieces

  /** setupNAT gets as far as installing rules. */
  predicate Installs(iface: string, e: Env) {
    e.writable && e.uplink != "" && e.uplink != iface && e.iptables
  }

  predicate NatWorks(iface: string, e: Env) {
    Installs(iface, e) && e.installs >= |NatRules(iface, e.uplink)|
  }

  /** The rules that get installed, all or up to the first failure. */
  function Installed(iface: string, e: Env): (rs: seq<Rule>)
    ensures Distinct(rs)
    ensures NatWorks(iface, e) ==> rs == NatRules(iface, e.uplink)
  {
    if Installs(iface, e) then Prefix(NatRules(iface, e.uplink), e.installs) else []
  }

  /** setupNAT: forwarding is already on when the uplink or iptables turns out to
      be missing, and so are the rules before the one that fails. */
  function SetupNAT(h: Host, m: Mem, iface: string, e: Env): Outcome {
    var m1 := if e.readable then m.(prev := h.ipForward) else m;
    var h1 := if e.writable then h.(ipForward := "1") else h;
    var h2 := h1.(rules := Enabled(h.rules, Installed(iface, e)));
    if NatWorks(iface, e) then Outcome(h2, m1.(out := e.uplink, nat_ := NATState(true, e.uplink, "")), true)
    else Outcome(h2, m1, false)
  }

  function Restore(prev: string): string {
    if prev == "0" || prev == "1" then prev else "0"
  }

  function CleanupNAT(h: Host, m: Mem, iface: string, e: Env): Host {
    h.(rules := if m.out != "" && e.iptables then Disabled(h.rules, Deletable(NatRules(iface, m.out), e.stuck))
                else h.rules,
       ipForward := if e.writable then Restore(m.prev) else h.ipForward)
  }

  /** stopDnsmasq: no pidfile means it is gone already; a bad one is removed but still an error. */
  function StopDnsmasq(h: Host, e: Env): (Host, bool) {
    if h.pidFile.None? then (h, true)
    else if !e.pidReadable then (h, false)
    else if !ValidPid(h.pidFile.value) then (h.(pidFile := None), false)
    else if !e.killOk then (h, false)
    else (h.(pidFile := None, dnsmasq := false), true)
  }

  function Teardown(h: Host, m: Mem, e: Env): Outcome {
    var cleaned := CleanupNAT(h, m, match m.config case Some(i) => i case None => "", e);
    var (stopped, ok) := StopDnsmasq(cleaned, e);
    if ok then Outcome(stopped.(stateFile := None), m.(config := None, out := ""), true)
    else Outcome(stopped, m, false)
  }

  /** What saveState writes. */
  function Record(iface: string, m: Mem): string {
    Join([iface] + [m.out, m.prev] + [if m.nat_.active then "" else ReplaceChar(m.nat_.reason, '|', "/")], '|')
  }

  function Part(parts: seq<string>, i: nat): string {
    if i < |parts| then parts[i] else ""
  }

  /** What loadState makes of the file's fields: only what is missing is filled in. */
  function Load(parts: seq<string>, m: Mem): Mem {
    var out := OrElse(Part(parts, 1), m.out);
    Mem(
      if Part(parts, 0) != "" && m.config.None? then Some(Part(parts, 0)) else m.config,
      out,
      OrElse(Part(parts, 2), m.prev),
      if m.nat_ != NO_NAT then m.nat_
      else if out != "" then NATState(true, out, "")
      else NATState(false, "", Part(parts, 3)))
  }

  function Hydrate(file: Option<string>, m: Mem): Mem {
    if m.config.Some? || file.None? then m else Load(SplitN(TrimSpace(file.value), '|', 4), m)
  }

  // ---- the commands

  function AfterStart(h: Host, m: Mem, c: ServerConfig, e: Env): Outcome {
    if !ValidConfig(c) || Running(h) || !e.linkOk || !e.addressOk || !e.configFileOk || !e.dnsmasqOk
    then Outcome(h, m, false)
    else
      var up := h.(pidFile := Some(e.pid), dnsmasq := true);
      var s := SetupNAT(up, m, c.iface, e);
      var mem := (if s.ok then s.mem else s.mem.(nat_ := NATState(false, "", e.reason))).(config := Some(c.iface));
      if !s.ok && c.requireNAT then Teardown(s.host, mem, e).(ok := false)
      else
        Outcome(s.host.(stateFile := if e.saveOk then Some(Record(c.iface, mem)) else h.stateFile), mem, true)
  }

  function AfterStop(h: Host, m: Mem, e: Env): Outcome {
    var m1 := Hydrate(h.stateFile, m);
    if !Running(h) && m1.config.None? then Outcome(h.(pidFile := None, stateFile := None), m1, false)
    else
      var t := Teardown(h, m1, e);
      if t.ok then t.(mem := t.mem.(nat_ := NO_NAT)) else t
  }

  // ---- what stopping does to the process

  /** dnsmasq is killed by the number in the pid file. A file without a positive
      number goes, and one that cannot be read stays, both with an error. */
  lemma KilledByNumber(h: Host, e: Env)
    ensures var (r, ok) := StopDnsmasq(h, e);
            var n := if h.pidFile.Some? then Atoi(TrimSpace(h.pidFile.value)) else None;
            && r.rules == h.rules && r.ipForward == h.ipForward && r.stateFile == h.stateFile
            && (h.pidFile.None? ==> ok && r == h)
            && (h.pidFile.Some? && !e.pidReadable ==> !ok && r == h)
            && (h.pidFile.Some? && e.pidReadable && (n.None? || n.value < 1) ==>
                  !ok && r.pidFile == None && r.dnsmasq == h.dnsmasq)
            && (h.pidFile.Some? && e.pidReadable && n.Some? && n.value >= 1 ==>
                  ok == e.killOk && (ok ==> r.pidFile == None && !r.dnsmasq) && (!ok ==> r == h))
  {
  }

  /** A start that works writes the pid file, and the record if it can; an old
      record stays when it cannot. */
  lemma StartedFiles(h: Host, m: Mem, c: ServerConfig, e: Env)
    requires AfterStart(h, m, c, e).ok
    ensures var r := AfterStart(h, m, c, e);
            && r.host.pidFile == Some(e.pid) && r.host.dnsmasq
            && r.host.stateFile == if e.saveOk then Some(Record(c.iface, r.mem)) else h.stateFile
  {
  }

  /** Of a record the fields that say something win over what a manager knows,
      but for the interface and the verdict, which it keeps once it has them. */
  lemma FieldsLoad(iface: string, out: string, prev: string, reason: string, m: Mem)
    ensures var r := Load([iface, out, prev, reason], m);
            && r.config == (if m.config.None? && iface != "" then Some(iface) else m.config)
            && r.out == (if out != "" then out else m.out) && r.prev == (if prev != "" then prev else m.prev)
            && r.nat_ == if m.nat_ != NATState(false, "", "") then m.nat_
                         else if out != "" || m.out != "" then NATState(true, r.out, "")
                         else NATState(false, "", reason)
  {
  }

  /** A manager that stopped the server knows no more than a new one, but for the old forwarding value. */
  lemma StoppedForgets(h: Host, m: Mem, e: Env)
    requires AfterStop(h, m, e).ok
    ensures var r := AfterStop(h, m, e).mem; r.config == None && r.out == "" && r.nat_ == NATState(false, "", "")
    ensures FRESH == Mem(None, "", "", NATState(false, "", ""))
  {
  }

  // ---- across processes

  /** A stopped server: no process, no files of a previous one. */
  predicate Stopped(h: Host) {
    h.stateFile.None? && h.pidFile.None?
  }

  /** Interface names and the sysctl's value do not contain the file's separator. */
  predicate PlainNames(h: Host, c: ServerConfig, e: Env) {
    '|' !in c.iface && '|' !in e.uplink && '|' !in h.ipForward
  }

  /** A record reads back field by field; the verdict's reason loses its
      separators and the white space at its end. */
  lemma RecordReadsBack(iface: string, out: string, prev: string, reason: string)
    requires '|' !in iface && '|' !in out && '|' !in prev
    ensures SplitN(TrimSpace(Join([iface] + [out, prev] + [reason], '|')), '|', 4)
         == [TrimLeft(iface), out, prev, TrimRight(reason)]
  {
    TrimRecord(iface, [out, prev], reason, '|');
    TrimKeepsOut(iface, '|');
    var first, last := TrimLeft(iface), TrimRight(reason);
    FourFields(first, out, prev, last, TrimSpace(Join([iface] + [out, prev] + [reason], '|')));
  }

  lemma FourFields(a: string, b: string, c: string, d: string, text: string)
    requires '|' !in a && '|' !in b && '|' !in c && text == Join([a] + [b, c] + [d], '|')
    ensures SplitN(text, '|', 4) == [a, b, c, d]
  {
    var fields := [a, b, c];
    assert [a] + [b, c] + [d] == fields + [d];
    SplitNRecord(fields, d, '|');
    assert fields + [d] == [a, b, c, d];
  }

  /** The sharing verdict the starting process reached. */
  function Verdict(c: ServerConfig, e: Env): NATState {
    if NatWorks(c.iface, e) then NATState(true, e.uplink, "") else NATState(false, "", e.reason)
  }

  /** The same verdict as it survives the state file. */
  function SavedVerdict(c: ServerConfig, e: Env): NATState {
    if NatWorks(c.iface, e) then NATState(true, e.uplink, "")
    else NATState(false, "", TrimRight(ReplaceChar(e.reason, '|', "/")))
  }

  /** What a new process knows after a start in another one: the interface, the
      uplink, the previous forwarding value and the verdict, up to the file's
      replacement and trimming. */
  lemma NewProcessKnows(h: Host, c: ServerConfig, e: Env)
    requires Stopped(h) && PlainNames(h, c, e) && TrimLeft(c.iface) == c.iface && e.saveOk
    requires AfterStart(h, FRESH, c, e).ok
    ensures var s := AfterStart(h, FRESH, c, e);
            && s.mem.nat_ == Verdict(c, e)
            && Hydrate(s.host.stateFile, FRESH)
               == Mem(Some(c.iface), if NatWorks(c.iface, e) then e.uplink else "",
                      if e.readable then h.ipForward else "", SavedVerdict(c, e))
  {
    var s := AfterStart(h, FRESH, c, e);
    var out := if NatWorks(c.iface, e) then e.uplink else "";
    var prev := if e.readable then h.ipForward else "";
    var reason := if NatWorks(c.iface, e) then "" else ReplaceChar(e.reason, '|', "/");
    assert s.mem == Mem(Some(c.iface), out, prev, Verdict(c, e));
    assert s.host.stateFile == Some(Join([c.iface] + [out, prev] + [reason], '|'));
    RecordReadsBack(c.iface, out, prev, reason);
    LoadFields(c.iface, out, prev, TrimRight(reason));
  }

  lemma LoadFields(iface: string, out: string, prev: string, reason: string)
    requires iface != ""
    ensures Load([iface, out, prev, reason], FRESH)
         == Mem(Some(iface), out, prev, if out != "" then NATState(true, out, "") else NATState(false, "", reason))
  {
  }

  /** Forwarding is put back to what it was: it was off, or was on and could be read. */
  predicate ForwardingRecoverable(h: Host, e: Env) {
    h.ipForward == "0" || (h.ipForward == "1" && e.readable)
  }

  /** A stop writes the value of before, or, when it cannot write, leaves what the start wrote. */
  predicate ForwardingReturns(h: Host, e: Env, e2: Env) {
    if e2.writable then ForwardingRecoverable(h, e) else !e.writable || h.ipForward == "1"
  }

  /** The rule stays when the sharing rules are deleted. */
  predicate Stays(e: Env, r: Rule) {
    !e.iptables || r in e.stuck
  }

  /** With sharing, a rule stays exactly if it was there before; without, nothing
      was installed that was not there before. */
  predicate RulesReturn(h: Host, c: ServerConfig, e: Env, e2: Env) {
    if NatWorks(c.iface, e) then Balanced(h.rules, NatRules(c.iface, e.uplink), e2)
    else forall r :: r in Installed(c.iface, e) ==> r in h.rules
  }

  /** All rules that cannot be deleted by this command. */
  function Stuck(nat_: seq<Rule>, e: Env): set<Rule> {
    set r | r in nat_ && Stays(e, r)
  }

  lemma {:induction false} DeletableNow(nat_: seq<Rule>, stuck: set<Rule>, stuck2: set<Rule>)
    requires forall r :: r in nat_ ==> (r in stuck <==> r in stuck2)
    ensures Deletable(nat_, stuck) == Deletable(nat_, stuck2)
  {
    if nat_ != [] {
      assert nat_[|nat_| - 1] in nat_;
      DeletableNow(nat_[..|nat_| - 1], stuck, stuck2);
    }
  }

  lemma {:induction false} NoneDeletable(nat_: seq<Rule>, stuck: set<Rule>)
    requires forall r :: r in nat_ ==> r in stuck
    ensures Deletable(nat_, stuck) == []
  {
    if nat_ != [] {
      assert nat_[|nat_| - 1] in nat_;
      NoneDeletable(nat_[..|nat_| - 1], stuck);
    }
  }

  /** A teardown that knows the uplink deletes the rules that do not stay. */
  lemma CleanupDeletes(h: Host, m: Mem, iface: string, e: Env)
    requires m.out != ""
    ensures CleanupNAT(h, m, iface, e).rules
         == Disabled(h.rules, Deletable(NatRules(iface, m.out), Stuck(NatRules(iface, m.out), e)))
  {
    var nat_ := NatRules(iface, m.out);
    if e.iptables {
      DeletableNow(nat_, e.stuck, Stuck(nat_, e));
    } else {
      NoneDeletable(nat_, Stuck(nat_, e));
    }
  }

  /** What a stop leaves of rules and forwarding, given what the stopping process knows. */
  lemma StopLeaves(h1: Host, c: ServerConfig, out: string, prev: string, verdict: NATState, e: Env)
    requires c.iface != "" && Hydrate(h1.stateFile, FRESH) == Mem(Some(c.iface), out, prev, verdict)
    ensures var h2 := AfterStop(h1, FRESH, e).host;
            var nat_ := NatRules(c.iface, out);
            && h2.rules == (if out == "" then h1.rules else Disabled(h1.rules, Deletable(nat_, Stuck(nat_, e))))
            && h2.ipForward == (if e.writable then Restore(prev) else h1.ipForward)
            && (AfterStop(h1, FRESH, e).ok <==> StopDnsmasq(h1, e).1)
            && h2.pidFile == StopDnsmasq(h1, e).0.pidFile && h2.dnsmasq == StopDnsmasq(h1, e).0.dnsmasq
            && h2.stateFile == (if StopDnsmasq(h1, e).1 then None else h1.stateFile)
  {
    var m := Mem(Some(c.iface), out, prev, verdict);
    if out != "" {
      CleanupDeletes(h1, m, c.iface, e);
    }
    TeardownStops(h1, m, e);
  }

  /** A teardown kills dnsmasq as if nothing had been cleaned up before. */
  lemma TeardownStops(h1: Host, m: Mem, e: Env)
    requires m.config.Some?
    ensures var t := Teardown(h1, m, e);
            var cleaned := CleanupNAT(h1, m, m.config.value, e);
            var (s, ok) := StopDnsmasq(h1, e);
            && t.ok == ok && t.host.pidFile == s.pidFile && t.host.dnsmasq == s.dnsmasq
            && t.host.rules == cleaned.rules && t.host.ipForward == cleaned.ipForward
            && t.host.stateFile == (if ok then None else h1.stateFile)
  {
  }

  /** What a successful start leaves of everything but the record. */
  lemma StartLeaves(h: Host, c: ServerConfig, e: Env)
    requires Stopped(h) && AfterStart(h, FRESH, c, e).ok
    ensures var h1 := AfterStart(h, FRESH, c, e).host;
            && h1.rules == Enabled(h.rules, Installed(c.iface, e))
            && h1.ipForward == (if e.writable then "1" else h.ipForward)
            && h1.pidFile == Some(e.pid) && h1.dnsmasq && c.iface != ""
  {
  }

  /** Start in one process and Stop in another: when forwarding and the rule list
      return to what they were, whether or not an uplink was found and whatever
      fails in the stop. A stop logs such failures, reports success and removes
      the record all the same. */
  lemma StartThenStop(h: Host, c: ServerConfig, e: Env, e2: Env)
    requires Stopped(h) && PlainNames(h, c, e) && TrimLeft(c.iface) == c.iface && e.saveOk
    requires AfterStart(h, FRESH, c, e).ok
    requires AfterStop(AfterStart(h, FRESH, c, e).host, FRESH, e2).ok
    ensures var h2 := AfterStop(AfterStart(h, FRESH, c, e).host, FRESH, e2).host;
            && (h2.ipForward == h.ipForward <==> ForwardingReturns(h, e, e2))
            && (h2.rules == h.rules <==> RulesReturn(h, c, e, e2))
            && Stopped(h2) && !h2.dnsmasq
  {
    NewProcessKnows(h, c, e);
    StartLeaves(h, c, e);
    var h1 := AfterStart(h, FRESH, c, e).host;
    var out, prev := if NatWorks(c.iface, e) then e.uplink else "", if e.readable then h.ipForward else "";
    StopOnce(h1, c, e.pid, out, prev, SavedVerdict(c, e), e2);
    var h2 := AfterStop(h1, FRESH, e2).host;
    RulesBack(h, c, e, e2, h2.rules);
  }

  lemma StopOnce(h1: Host, c: ServerConfig, pid: string, out: string, prev: string, verdict: NATState, e: Env)
    requires c.iface != "" && Hydrate(h1.stateFile, FRESH) == Mem(Some(c.iface), out, prev, verdict)
    requires h1.pidFile == Some(pid) && h1.dnsmasq && AfterStop(h1, FRESH, e).ok
    ensures var h2 := AfterStop(h1, FRESH, e).host;
            var nat_ := NatRules(c.iface, out);
            && h2.rules == (if out == "" then h1.rules else Disabled(h1.rules, Deletable(nat_, Stuck(nat_, e))))
            && h2.ipForward == (if e.writable then Restore(prev) else h1.ipForward)
            && Stopped(h2) && !h2.dnsmasq
  {
    StopLeaves(h1, c, out, prev, verdict, e);
  }

  lemma RulesBack(h: Host, c: ServerConfig, e: Env, e2: Env, left: seq<Rule>)
    requires var nat_ := NatRules(c.iface, e.uplink);
             var on := Enabled(h.rules, Installed(c.iface, e));
             left == if NatWorks(c.iface, e) then Disabled(on, Deletable(nat_, Stuck(nat_, e2))) else on
    ensures left == h.rules <==> RulesReturn(h, c, e, e2)
  {
    if NatWorks(c.iface, e) {
      RulesOnce(h.rules, NatRules(c.iface, e.uplink), e2);
    } else {
      EnabledSame(h.rules, Installed(c.iface, e));
    }
  }

  /** Start got as far as a running dnsmasq. */
  predicate Launched(h: Host, c: ServerConfig, e: Env) {
    ValidConfig(c) && !Running(h) && e.linkOk && e.addressOk && e.configFileOk && e.dnsmasqOk
  }

  /** A required but impossible sharing setup is rolled back by Start itself,
      forwarding exactly when its value is recoverable or was never written, the
      rules exactly when none was installed that was not there before: the
      rollback does not know of the rules before the one that failed. */
  lemma RequiredNATRollsBack(h: Host, c: ServerConfig, e: Env)
    ensures var s := AfterStart(h, FRESH, c, e);
            && (s.ok <==> Launched(h, c, e) && (c.requireNAT ==> NatWorks(c.iface, e)))
            && (!Launched(h, c, e) ==> s.host == h)
            && (Launched(h, c, e) && !s.ok ==>
                  && (s.host.rules == h.rules <==> forall r :: r in Installed(c.iface, e) ==> r in h.rules)
                  && (s.host.ipForward == h.ipForward <==> ForwardingRecoverable(h, e) || !e.writable)
                  && s.mem.nat_ == NATState(false, "", e.reason)
                  && (h.stateFile.None? && e.pidReadable && e.killOk && ValidPid(e.pid) ==>
                        Stopped(s.host) && !s.host.dnsmasq))
  {
    EnabledSame(h.rules, Installed(c.iface, e));
  }

  lemma StopRetried(
      h1: Host, c: ServerConfig, pid: string, out: string, prev: string, verdict: NATState, e2: Env, e3: Env)
    requires c.iface != "" && Hydrate(h1.stateFile, FRESH) == Mem(Some(c.iface), out, prev, verdict)
    requires h1.pidFile == Some(pid) && h1.dnsmasq && !AfterStop(h1, FRESH, e2).ok
    ensures var failed := AfterStop(h1, FRESH, e2).host;
            var retried := AfterStop(failed, FRESH, e3);
            var first := AfterStop(h1, FRESH, e3);
            var nat_ := NatRules(c.iface, out);
            var del2, del3 := Deletable(nat_, Stuck(nat_, e2)), Deletable(nat_, Stuck(nat_, e3));
            && failed.stateFile == h1.stateFile
            && (retried.ok <==> if ValidPid(pid) then e3.pidReadable && e3.killOk else e2.pidReadable)
            && (first.ok <==> ValidPid(pid) && e3.pidReadable && e3.killOk)
            && (retried.ok ==> Stopped(retried.host) && (retried.host.dnsmasq <==> !ValidPid(pid)))
            && first.host.ipForward == (if e3.writable then Restore(prev) else h1.ipForward)
            && retried.host.ipForward == (if e3.writable || e2.writable then Restore(prev) else h1.ipForward)
            && first.host.rules == (if out == "" then h1.rules else Disabled(h1.rules, del3))
            && retried.host.rules == (if out == "" then h1.rules else Disabled(Disabled(h1.rules, del2), del3))
  {
    var failed := AfterStop(h1, FRESH, e2).host;
    StopLeaves(h1, c, out, prev, verdict, e2);
    StopLeaves(h1, c, out, prev, verdict, e3);
    StopLeaves(failed, c, out, prev, verdict, e3);
  }

  /** A Stop that cannot kill dnsmasq leaves the state file, so that another
      process can retry, and when the retry succeeds. How it then differs from
      a first success: a rule differs exactly if the failed stop deleted it and
      the retry would not have, or it was there more than once; forwarding
      differs exactly if only the failed stop could write it; and dnsmasq still
      runs exactly if the failed stop gave up on an unreadable process number,
      which it deletes. */
  lemma FailedStopCanBeRetried(h: Host, c: ServerConfig, e: Env, e2: Env, e3: Env)
    requires Stopped(h) && PlainNames(h, c, e) && TrimLeft(c.iface) == c.iface && e.saveOk
    requires AfterStart(h, FRESH, c, e).ok
    requires var h1 := AfterStart(h, FRESH, c, e).host;
             !AfterStop(h1, FRESH, e2).ok
    ensures var h1 := AfterStart(h, FRESH, c, e).host;
            var failed := AfterStop(h1, FRESH, e2).host;
            var retried := AfterStop(failed, FRESH, e3);
            var first := AfterStop(h1, FRESH, e3);
            && failed.stateFile == h1.stateFile
            && (retried.ok <==> if ValidPid(e.pid) then e3.pidReadable && e3.killOk else e2.pidReadable)
            && (first.ok <==> ValidPid(e.pid) && e3.pidReadable && e3.killOk)
            && (retried.ok ==> Stopped(retried.host) && (retried.host.dnsmasq <==> !ValidPid(e.pid)))
            && (retried.host.ipForward == first.host.ipForward <==>
                  e3.writable || !e2.writable
                  || Restore(if e.readable then h.ipForward else "") == if e.writable then "1" else h.ipForward)
            && (retried.host.rules == first.host.rules <==>
                  !NatWorks(c.iface, e) || OneRound(h.rules, NatRules(c.iface, e.uplink), e2, e3))
  {
    NewProcessKnows(h, c, e);
    StartLeaves(h, c, e);
    var h1 := AfterStart(h, FRESH, c, e).host;
    var out, prev := if NatWorks(c.iface, e) then e.uplink else "", if e.readable then h.ipForward else "";
    StopRetried(h1, c, e.pid, out, prev, SavedVerdict(c, e), e2, e3);
    RulesTwice(h.rules, NatRules(c.iface, e.uplink), e2, e3);
  }

  lemma RulesTwice(rules: seq<Rule>, nat_: seq<Rule>, e2: Env, e3: Env)
    requires Distinct(nat_)
    ensures var on := Enabled(rules, nat_);
            var del2, del3 := Deletable(nat_, Stuck(nat_, e2)), Deletable(nat_, Stuck(nat_, e3));
            (Disabled(Disabled(on, del2), del3) == Disabled(on, del3) <==> OneRound(rules, nat_, e2, e3))
  {
    DisableTwice(rules, nat_, Stuck(nat_, e2), Stuck(nat_, e3));
  }

  /** No rule that the first stop deletes is missed by the second, or was there more than once. */
  predicate OneRound(rules: seq<Rule>, nat_: seq<Rule>, e2: Env, e3: Env) {
    forall r :: r in nat_ ==> Stays(e2, r) || (!Stays(e3, r) && multiset(rules)[r] <= 1)
  }

  lemma RulesOnce(rules: seq<Rule>, nat_: seq<Rule>, e: Env)
    requires Distinct(nat_)
    ensures Disabled(Enabled(rules, nat_), Deletable(nat_, Stuck(nat_, e))) == rules <==> Balanced(rules, nat_, e)
  {
    EnableThenDisable(rules, nat_, Stuck(nat_, e));
  }

  /** A rule stays exactly if it was there before. */
  predicate Balanced(rules: seq<Rule>, nat_: seq<Rule>, e: Env) {
    forall r :: r in nat_ ==> (r in rules <==> Stays(e, r))
  }

  /** The state file is what makes it so. When it could not be written, a stop
      from another process knows neither the uplink nor the forwarding value:
      every installed rule stays, and forwarding is turned off, so that it comes
      back exactly when it was off. */
  lemma UnsavedRulesStay(h: Host, c: ServerConfig, e: Env, e2: Env)
    requires Stopped(h) && !e.saveOk
    requires AfterStart(h, FRESH, c, e).ok
    ensures var h2 := AfterStop(AfterStart(h, FRESH, c, e).host, FRESH, e2).host;
            && h2.rules == Enabled(h.rules, Installed(c.iface, e))
            && (TrimSpace(e.pid) != "" && e2.writable ==> h2.ipForward == "0")
            && (TrimSpace(e.pid) != "" && e2.writable ==> (h2.ipForward == h.ipForward <==> h.ipForward == "0"))
            && (TrimSpace(e.pid) == "" || !e2.writable ==> h2.ipForward == if e.writable then "1" else h.ipForward)
  {
  }

  /** While sharing works, the host translates what leaves by the uplink and lets
      through what comes from the served interface, and answers to it. */
  lemma SharingIsOn(h: Host, c: ServerConfig, e: Env, p: Packet)
    requires Stopped(h) && AfterStart(h, FRESH, c, e).ok && NatWorks(c.iface, e)
    ensures var h1 := AfterStart(h, FRESH, c, e).host;
            && h1.ipForward == "1"
            && (Translated(h1.rules, p) <==> Translated(h.rules, p) || p.outIface == e.uplink)
            && (Accepted(h1.rules, p) <==>
                  Accepted(h.rules, p) || p.inIface == c.iface || (p.outIface == c.iface && p.established))
  {
    StartLeaves(h, c, e);
    EnabledShares(h.rules, c.iface, e.uplink, p);
  }

  /** When sharing works at all: with an uplink other than the served interface,
      and forwarding and every rule can be set. */
  lemma SharingWorksIff(h: Host, c: ServerConfig, e: Env)
    requires Stopped(h) && AfterStart(h, FRESH, c, e).ok
    ensures AfterStart(h, FRESH, c, e).mem.nat_.active <==>
            e.writable && e.uplink != "" && e.uplink != c.iface && e.iptables && e.installs >= 3
  {
    StartLeaves(h, c, e);
  }

  /** Only a named interface without blanks or slashes, with valid addresses, is ever served. */
  lemma ServedNames(h: Host, c: ServerConfig, e: Env)
    ensures AfterStart(h, FRESH, c, e).ok ==>
              && c.iface != "" && c.addressesValid
              && ' ' !in c.iface && '\t' !in c.iface && '\n' !in c.iface && '\r' !in c.iface && '/' !in c.iface
    ensures c.iface == "" || !c.addressesValid || ' ' in c.iface || '/' in c.iface ==>
              !AfterStart(h, FRESH, c, e).ok && AfterStart(h, FRESH, c, e).host == h
  {
    RequiredNATRollsBack(h, c, e);
  }

  /** The record as text. */
  lemma RecordText(iface: string, m: Mem)
    ensures Record(iface, m) == iface + "|" + m.out + "|" + m.prev + "|"
                                + if m.nat_.active then "" else ReplaceChar(m.nat_.reason, '|', "/")
  {
    var reason := if m.nat_.active then "" else ReplaceChar(m.nat_.reason, '|', "/");
    JoinTwo(iface, m.out, '|');
    JoinMore([iface], m.out, m.prev, '|');
    JoinMore([iface, m.out], m.prev, reason, '|');
    assert [iface] + [m.out, m.prev] + [reason] == [iface, m.out] + [m.prev, reason];
  }

  // ---- runs that leave something behind

  const SHARE := ServerConfig("wlan0", true, false)

  /** A stopped host with these rules; forwarding is off. */
  function Idle(rules: seq<Rule>): Host {
    Host("0", rules, None, None, false)
  }

  predicate Smooth(e: Env) {
    && e.linkOk && e.addressOk && e.configFileOk && e.dnsmasqOk && e.pid == "7" && e.readable && e.writable
    && e.uplink == "eth0" && e.iptables && e.installs == 3 && e.stuck == {} && e.saveOk && e.pidReadable && e.killOk
  }

  lemma SmoothStart(rules: seq<Rule>, e: Env, e2: Env)
    requires Smooth(e) && e2.pidReadable && e2.killOk
    ensures Stopped(Idle(rules)) && PlainNames(Idle(rules), SHARE, e) && TrimLeft(SHARE.iface) == SHARE.iface
    ensures AfterStart(Idle(rules), FRESH, SHARE, e).ok && NatWorks(SHARE.iface, e) && ValidPid(e.pid)
    ensures AfterStop(AfterStart(Idle(rules), FRESH, SHARE, e).host, FRESH, e2).ok
  {
    var h := Idle(rules);
    assert "eth0"[0] != "wlan0"[0];
    assert ValidConfig(SHARE);
    SevenIsValid();
    RequiredNATRollsBack(h, SHARE, e);
    NewProcessKnows(h, SHARE, e);
    StopLeaves(AfterStart(h, FRESH, SHARE, e).host, SHARE, "eth0", "0", SavedVerdict(SHARE, e), e2);
  }

  lemma SevenIsValid()
    ensures ValidPid("7")
  {
    TrimmedIsFixed("7");
    assert "7"[1..] == "";
    assert Digits("7", 0) == Digits("", 7);
  }

  /** Concretely: the host had a sharing rule of its own, and the teardown deletes it. */
  lemma HostRuleDeleted(e: Env)
    requires Smooth(e)
    ensures var own := NatRules("wlan0", "eth0")[0];
            var h2 := AfterStop(AfterStart(Idle([own]), FRESH, SHARE, e).host, FRESH, e).host;
            own !in h2.rules && Stopped(h2)
  {
    var nat_ := NatRules("wlan0", "eth0");
    var own := nat_[0];
    var h := Idle([own]);
    SmoothStart([own], e, e);
    NewProcessKnows(h, SHARE, e);
    StartLeaves(h, SHARE, e);
    StopOnce(AfterStart(h, FRESH, SHARE, e).host, SHARE, "7", "eth0", "0", SavedVerdict(SHARE, e), e);
    OwnIsDeleted(nat_, own, e);
  }

  lemma OwnIsDeleted(nat_: seq<Rule>, own: Rule, e: Env)
    requires Distinct(nat_) && own in nat_ && !Stays(e, own)
    ensures own !in Disabled(Enabled([own], nat_), Deletable(nat_, Stuck(nat_, e)))
  {
    var del := Deletable(nat_, Stuck(nat_, e));
    DeletableHas(nat_, Stuck(nat_, e));
    var on := Enabled([own], nat_);
    EnabledCount([own], nat_, own);
    DisabledCount(on, del, own);
    assert own in on <==> multiset(on)[own] > 0;
    assert own in Disabled(on, del) <==> multiset(Disabled(on, del))[own] > 0;
  }

  /** Concretely: a required sharing setup whose second rule fails is rolled
      back, but the rollback does not know of the first rule. */
  lemma FailedStartLeavesRule(e: Env)
    requires Smooth(e.(installs := 3)) && e.installs == 1
    ensures var s := AfterStart(Idle([]), FRESH, SHARE.(requireNAT := true), e);
            !s.ok && s.host.rules == [NatRules("wlan0", "eth0")[0]]
  {
    var c := SHARE.(requireNAT := true);
    var first := NatRules("wlan0", "eth0")[0];
    assert "eth0"[0] != "wlan0"[0];
    RequiredNATRollsBack(Idle([]), c, e);
    assert Installed(c.iface, e) == [first];
    EnabledIs([], [first]);
  }

  /** Concretely: a stop whose iptables does not work reports success, removes
      the record and leaves all three rules. */
  lemma RulesLeftBehind(e: Env, e2: Env)
    requires Smooth(e) && !e2.iptables && e2.pidReadable && e2.killOk
    ensures var stop := AfterStop(AfterStart(Idle([]), FRESH, SHARE, e).host, FRESH, e2);
            stop.ok && Stopped(stop.host) && stop.host.rules == NatRules("wlan0", "eth0")
  {
    var h := Idle([]);
    var nat_ := NatRules("wlan0", "eth0");
    SmoothStart([], e, e2);
    NewProcessKnows(h, SHARE, e);
    StopLeaves(AfterStart(h, FRESH, SHARE, e).host, SHARE, "eth0", "0", SavedVerdict(SHARE, e), e2);
    NoneDeletable(nat_, Stuck(nat_, e2));
    EnabledIs([], nat_);
    SameFilter([], nat_, {});
    AllDeletable(nat_);
  }

  lemma {:induction false} AllDeletable(nat_: seq<Rule>)
    ensures Deletable(nat_, {}) == nat_
  {
    if nat_ != [] {
      AllDeletable(nat_[..|nat_| - 1]);
    }
  }

  /** Concretely: of a rule that the host had twice, a stop that is retried
      deletes both copies, and one that succeeds at once only one. */
  lemma SecondCopyDeleted(e: Env, e2: Env)
    requires Smooth(e) && e2 == e.(killOk := false)
    ensures var own := NatRules("wlan0", "eth0")[0];
            var h1 := AfterStart(Idle([own, own]), FRESH, SHARE, e).host;
            var retried := AfterStop(AfterStop(h1, FRESH, e2).host, FRESH, e);
            var first := AfterStop(h1, FRESH, e);
            first.ok && retried.ok && first.host.rules != retried.host.rules
  {
    var own := NatRules("wlan0", "eth0")[0];
    var h := Idle([own, own]);
    SmoothStart([own, own], e, e);
    NewProcessKnows(h, SHARE, e);
    StopLeaves(AfterStart(h, FRESH, SHARE, e).host, SHARE, "eth0", "0", SavedVerdict(SHARE, e), e2);
    FailedStopCanBeRetried(h, SHARE, e, e2, e);
    assert multiset([own, own])[own] == 2 && !Stays(e2, own);
  }

  // ---- the manager

  /** The sysctl, the runtime files and the process, shared by all managers. */
  class ServerHost {
    var ipForward: string
    var stateFile: Option<string>
    var pidFile: Option<string>
    var dnsmasq: bool

    constructor (h: Host)
      ensures ipForward == h.ipForward && stateFile == h.stateFile && pidFile == h.pidFile && dnsmasq == h.dnsmasq
    {
      ipForward, stateFile, pidFile, dnsmasq := h.ipForward, h.stateFile, h.pidFile, h.dnsmasq;
    }
  }

  class DhcpManager {
    const host: ServerHost
    const fw: Manager
    var currentConfig: Option<string>
    var outInterface: string
    var prevIPForward: string
    var natState: NATState

    constructor (host: ServerHost, fw: Manager)
      ensures this.host == host && this.fw == fw && Memory() == FRESH
    {
      this.host, this.fw := host, fw;
      currentConfig, outInterface, prevIPForward, natState := None, "", "", NO_NAT;
    }

    function Memory(): Mem
      reads this
    {
      Mem(currentConfig, outInterface, prevIPForward, natState)
    }

    function View(): Host
      reads this, host, fw
    {
      Host(host.ipForward, fw.rules, host.stateFile, host.pidFile, host.dnsmasq)
    }

    method SetUpNAT(iface: string, e: Env) returns (ok: bool)
      modifies this, host, fw
      ensures Outcome(View(), Memory(), ok) == SetupNAT(old(View()), old(Memory()), iface, e)
    {
      if e.readable {
        prevIPForward := host.ipForward;
      }
      if !e.writable {
        return false;
      }
      host.ipForward := "1";
      if e.uplink == "" || e.uplink == iface {
        return false;
      }
      if !e.iptables {
        return false;
      }
      ok := fw.EnableNAT(iface, e.uplink, e.installs);
      if !ok {
        return false;
      }
      outInterface := e.uplink;
      natState := NATState(true, e.uplink, "");
    }

    method CleanUpNAT(iface: string, e: Env)
      modifies host, fw
      ensures View() == CleanupNAT(old(View()), old(Memory()), iface, e)
    {
      if outInterface != "" {
        if e.iptables {
          var _ := fw.DisableNAT(iface, outInterface, e.stuck);
        }
      }
      var restore := prevIPForward;
      if restore != "0" && restore != "1" {
        restore := "0";
      }
      if e.writable {
        host.ipForward := restore;
      }
    }

    method KillDnsmasq(e: Env) returns (ok: bool)
      modifies host
      ensures (View(), ok) == StopDnsmasq(old(View()), e)
    {
      if host.pidFile.None? {
        return true;
      }
      if !e.pidReadable {
        return false;
      }
      var n := Atoi(TrimSpace(host.pidFile.value));
      if n.None? || n.value <= 0 {
        host.pidFile := None;
        return false;
      }
      if !e.killOk {
        return false;
      }
      host.dnsmasq := false;
      host.pidFile := None;
      return true;
    }

    method TearDown(e: Env) returns (ok: bool)
      modifies this, host, fw
      ensures Outcome(View(), Memory(), ok) == Teardown(old(View()), old(Memory()), e)
    {
      if currentConfig.Some? {
        CleanUpNAT(currentConfig.value, e);
      } else {
        CleanUpNAT("", e);
      }
      ok := KillDnsmasq(e);
      if !ok {
        return false;
      }
      currentConfig := None;
      outInterface := "";
      host.stateFile := None;
    }

    method SaveState(iface: string, e: Env)
      modifies host
      ensures View() == if e.saveOk then old(View()).(stateFile := Some(Record(iface, Memory()))) else old(View())
    {
      var reason := "";
      if !natState.active {
        reason := ReplaceChar(natState.reason, '|', "/");
      }
      if e.saveOk {
        host.stateFile := Some(Join([iface] + [outInterface, prevIPForward] + [reason], '|'));
      }
    }

    method LoadState()
      modifies this
      ensures Memory() == Hydrate(host.stateFile, old(Memory()))
    {
      if currentConfig.Some? || host.stateFile.None? {
        return;
      }
      var parts := SplitN(TrimSpace(host.stateFile.value), '|', 4);
      ApplyState(parts);
    }

    method ApplyState(parts: seq<string>)
      requires currentConfig.None? && |parts| >= 1
      modifies this
      ensures Memory() == Load(parts, old(Memory()))
    {
      if parts[0] != "" {
        currentConfig := Some(parts[0]);
      }
      if |parts| >= 2 && parts[1] != "" {
        outInterface := parts[1];
      }
      if |parts| >= 3 && parts[2] != "" {
        prevIPForward := parts[2];
      }
      if natState == NO_NAT {
        if outInterface != "" {
          natState := NATState(true, outInterface, "");
        } else if |parts| >= 4 && parts[3] != "" {
          natState := NATState(false, "", parts[3]);
        }
      }
    }

    method Start(c: ServerConfig, e: Env) returns (ok: bool)
      modifies this, host, fw
      ensures Outcome(View(), Memory(), ok) == AfterStart(old(View()), old(Memory()), c, e)
    {
      if !ValidConfig(c) {
        return false;
      }
      if Running(View()) {
        return false;
      }
      if !e.linkOk || !e.addressOk || !e.configFileOk || !e.dnsmasqOk {
        return false;
      }
      host.pidFile, host.dnsmasq := Some(e.pid), true;
      ok := SetUpNAT(c.iface, e);
      if !ok {
        natState := NATState(false, "", e.reason);
        if c.requireNAT {
          currentConfig := Some(c.iface);
          var _ := TearDown(e);
          return false;
        }
      }
      currentConfig := Some(c.iface);
      SaveState(c.iface, e);
      return true;
    }

    method Stop(e: Env) returns (ok: bool)
      modifies this, host, fw
      ensures Outcome(View(), Memory(), ok) == AfterStop(old(View()), old(Memory()), e)
    {
      LoadState();
      if !Running(View()) {
        if currentConfig.None? {
          host.pidFile := None;
          host.stateFile := None;
          return false;
        }
      }
      ok := TearDown(e);
      if !ok {
        return false;
      }
      natState := NO_NAT;
    }

    method NATStatus() returns (n: NATState)
      modifies this
      ensures Memory() == Hydrate(host.stateFile, old(Memory())) && n == natState
    {
      LoadState();
      return natState;
    }
  }
}
