/** RunConnect (cmd/net): which interrupt cleanups are registered at every point
    of a connect, and what an interrupt there leaves of resolv.conf. */
module RunConnect {
  import opened Cleanup
  import opened Dns
  import opened Strings

  /** One step of a run. Quiet stands for everything that touches neither the
      registry nor resolv.conf. */
  datatype Act = Add(action: Action) | Resolv(event: Event) | Settled | Quiet

  datatype State = State(entries: seq<Entry>, next: nat, undo: seq<nat>, dns: ResolvConf)

  function WithoutAll(es: seq<Entry>, ids: seq<nat>): seq<Entry>
    decreases |ids|
  {
    if ids == [] then es else WithoutAll(Cleanup.Without(es, ids[0]), ids[1..])
  }

  function Perform(s: State, a: Act, validIP: string -> bool): State {
    match a
    case Add(action) =>
      s.(entries := s.entries + [Entry(s.next, action)], next := s.next + 1, undo := s.undo + [s.next])
    case Resolv(e) => s.(dns := Dns.Step(s.dns, e, validIP))
    case Settled => s.(entries := WithoutAll(s.entries, s.undo), undo := [])
    case Quiet => s
  }

  function PerformAll(s: State, acts: seq<Act>, validIP: string -> bool): State
    decreases |acts|
  {
    if acts == [] then s else PerformAll(Perform(s, acts[0], validIP), acts[1..], validIP)
  }

  // ---- the run

  /** What a run turns out to be: the events are those of the VPN teardown, of
      the link coming up, and of the VPN attempt at the end; begun is false when
      no interface is found or its MAC cannot be set. */
  datatype Scenario =
    | NotLoaded(teardown: seq<Event>)
    | PlainSSID(teardown: seq<Event>, cleared: Write, joined: bool, leases: seq<Event>, after: seq<Event>)
    | Configured(teardown: seq<Event>, wired: bool, iface: string, dns: DnsPlan, begun: bool, linkOk: bool,
                 leases: seq<Event>, after: seq<Event>)

  /** The configured servers, and how reading and writing resolv.conf turns out around the link's coming up. */
  datatype DnsPlan = DnsPlan(servers: seq<string>, first: Write, readOk: bool, last: Write)

  function Start(p: DnsPlan): Act {
    Resolv(ConnectStart(p.servers, p.first))
  }

  function End(p: DnsPlan): Act {
    Resolv(ConnectEnd(p.servers, p.readOk, p.last))
  }

  function Events(es: seq<Event>): seq<Act> {
    if es == [] then [] else [Resolv(es[0])] + Events(es[1..])
  }

  /** Up to the point where this run starts changing a link. */
  function Preflight(sc: Scenario): seq<Act> {
    Events(sc.teardown) + if sc.PlainSSID? then [Resolv(ClearDNS(sc.cleared))] else [Quiet]
  }

  /** From the first registration until the link is up or has failed. */
  function Joining(sc: Scenario): seq<Act> {
    match sc
    case NotLoaded(_) => []
    case PlainSSID(_, _, joined, leases, _) =>
      [Add(AbortWiFi)] + Events(leases) + if joined then [Add(UnlockResolvConf), Resolv(LockDNS), Quiet] else []
    case Configured(_, wired, iface, dns, begun, linkOk, leases, _) =>
      [Add(if wired then AbortWired(iface) else AbortWiFi), Add(UnlockResolvConf)]
      + if begun then Linking(dns, linkOk, leases) else []
  }

  /** ConnectToConfiguredNetwork as resolv.conf sees it. */
  function Linking(dns: DnsPlan, linkOk: bool, leases: seq<Event>): seq<Act> {
    [Start(dns)] + Events(leases) + if linkOk then [End(dns), Quiet] else []
  }

  predicate Joined(sc: Scenario) {
    (sc.PlainSSID? && sc.joined) || (sc.Configured? && sc.begun && sc.linkOk)
  }

  /** Every return runs the deferred settled(); a run that got its link settles before the VPN attempt. */
  function Program(sc: Scenario): seq<Act> {
    Preflight(sc) + Joining(sc)
    + if Joined(sc) then [Settled] + Events(sc.after) + [Settled] else [Settled]
  }

  // ---- what holds after any steps

  /** This run's own entries stand after those that were there before, in the
      order of undo. */
  ghost predicate Own(initial: seq<Entry>, s: State) {
    && |s.entries| == |initial| + |s.undo|
    && s.entries[..|initial|] == initial
    && (forall i :: 0 <= i < |s.undo| ==> s.entries[|initial| + i].id == s.undo[i])
    && (forall i, j :: 0 <= i < j < |s.entries| ==> s.entries[i].id != s.entries[j].id)
    && (forall i :: 0 <= i < |s.entries| ==> s.entries[i].id < s.next)
  }

  lemma WithoutInMiddle(a: seq<Entry>, e: Entry, b: seq<Entry>)
    requires forall i :: 0 <= i < |a| ==> a[i].id != e.id
    ensures Cleanup.Without(a + [e] + b, e.id) == a + b
    decreases |a|
  {
    var s := a + [e] + b;
    if a == [] {
      assert s == [e] + b;
    } else {
      assert s[0] == a[0] && s[1..] == a[1..] + [e] + b;
      WithoutInMiddle(a[1..], e, b);
    }
  }

  lemma {:induction false} SettledRemovesOwn(initial: seq<Entry>, own: seq<Entry>, ids: seq<nat>)
    requires |own| == |ids| && forall i :: 0 <= i < |own| ==> own[i].id == ids[i]
    requires forall i, j :: 0 <= i < |initial| && 0 <= j < |ids| ==> initial[i].id != ids[j]
    ensures WithoutAll(initial + own, ids) == initial
    decreases |ids|
  {
    if ids == [] {
      assert initial + own == initial;
    } else {
      assert initial + own == initial + [own[0]] + own[1..];
      WithoutInMiddle(initial, own[0], own[1..]);
      SettledRemovesOwn(initial, own[1..], ids[1..]);
    }
  }

  lemma SettledRestores(initial: seq<Entry>, s: State)
    requires Own(initial, s)
    ensures WithoutAll(s.entries, s.undo) == initial
  {
    var own := s.entries[|initial|..];
    assert s.entries == initial + own;
    forall i, j | 0 <= i < |initial| && 0 <= j < |s.undo|
      ensures initial[i].id != s.undo[j]
    {
      assert s.entries[i] == initial[i] && s.entries[|initial| + j].id == s.undo[j];
    }
    SettledRemovesOwn(initial, own, s.undo);
  }

  lemma StepKeepsOwn(initial: seq<Entry>, s: State, a: Act, validIP: string -> bool)
    requires Own(initial, s)
    ensures Own(initial, Perform(s, a, validIP))
  {
    if a.Settled? {
      SettledRestores(initial, s);
      assert forall i :: 0 <= i < |initial| ==> s.entries[i] == initial[i];
    }
  }

  lemma {:induction false} StepsKeepOwn(initial: seq<Entry>, s: State, acts: seq<Act>, validIP: string -> bool)
    requires Own(initial, s)
    ensures Own(initial, PerformAll(s, acts, validIP))
    decreases |acts|
  {
    if acts != [] {
      StepKeepsOwn(initial, s, acts[0], validIP);
      StepsKeepOwn(initial, Perform(s, acts[0], validIP), acts[1..], validIP);
    }
  }

  lemma {:induction false} PerformAppend(s: State, a: seq<Act>, b: seq<Act>, validIP: string -> bool)
    ensures PerformAll(s, a + b, validIP) == PerformAll(PerformAll(s, a, validIP), b, validIP)
    decreases |a|
  {
    if a == [] {
      assert a + b == b;
    } else {
      assert (a + b)[0] == a[0] && (a + b)[1..] == a[1..] + b;
      PerformAppend(Perform(s, a[0], validIP), a[1..], b, validIP);
    }
  }

  /** A run begins with nothing of its own registered. */
  ghost predicate Begins(s: State) {
    s.undo == [] && Own(s.entries, s)
  }

  /** On every return path the registry is left as it was found. */
  lemma RegistryLeftAsFound(s: State, sc: Scenario, validIP: string -> bool)
    requires Begins(s)
    ensures PerformAll(s, Program(sc), validIP).entries == s.entries
  {
    var p := Program(sc);
    var before := p[..|p| - 1];
    assert p == before + [Settled];
    PerformAppend(s, before, [Settled], validIP);
    StepsKeepOwn(s.entries, s, before, validIP);
    var end := PerformAll(s, before, validIP);
    SettledRestores(s.entries, end);
    assert PerformAll(end, [Settled], validIP) == Perform(end, Settled, validIP);
  }

  // ---- interrupts

  /** An interrupt drains the registry and exits: the cleanups run, last
      registered first, on the resolv.conf of that moment. */
  function RunCleanups(d: ResolvConf, pending: seq<Entry>, validIP: string -> bool): ResolvConf
    decreases |pending|
  {
    if pending == [] then d
    else
      var next := if pending[0].action.UnlockResolvConf? then Dns.Step(d, UnlockDNS, validIP) else d;
      RunCleanups(next, pending[1..], validIP)
  }

  function AfterInterrupt(s: State, validIP: string -> bool): ResolvConf {
    RunCleanups(s.dns, Reverse(s.entries), validIP)
  }

  lemma {:induction false} CleanupsOnlyUnlock(d: ResolvConf, pending: seq<Entry>, validIP: string -> bool)
    ensures var r := RunCleanups(d, pending, validIP);
            && r.content == d.content
            && ((!d.immutable && !d.owned) || (exists e :: e in pending && e.action.UnlockResolvConf?) ==>
                  !r.immutable && !r.owned)
            && ((forall e :: e in pending ==> !e.action.UnlockResolvConf?) ==> r == d)
    decreases |pending|
  {
    if pending != [] {
      var next := if pending[0].action.UnlockResolvConf? then Dns.Step(d, UnlockDNS, validIP) else d;
      CleanupsOnlyUnlock(next, pending[1..], validIP);
      assert pending == [pending[0]] + pending[1..];
    }
  }

  lemma {:induction false} ReverseHas(es: seq<Entry>, e: Entry)
    ensures e in Reverse(es) <==> e in es
  {
    if es != [] {
      ReverseHas(es[1..], e);
      assert es == [es[0]] + es[1..];
    }
  }

  /** Once UnlockResolvConf was added and as long as nothing was settled, it is registered. */
  lemma {:induction false} AddedStays(s: State, acts: seq<Act>, validIP: string -> bool)
    requires Settled !in acts
    requires Add(UnlockResolvConf) in acts || exists e :: e in s.entries && e.action.UnlockResolvConf?
    ensures exists e :: e in PerformAll(s, acts, validIP).entries && e.action.UnlockResolvConf?
    decreases |acts|
  {
    if acts != [] {
      var next := Perform(s, acts[0], validIP);
      assert acts == [acts[0]] + acts[1..];
      if acts[0] == Add(UnlockResolvConf) {
        assert next.entries[|s.entries|].action.UnlockResolvConf?;
      } else if e :| e in s.entries && e.action.UnlockResolvConf? {
        assert e in next.entries;
      }
      AddedStays(next, acts[1..], validIP);
    }
  }

  /** An interrupt at any step after this run's unlock was registered and before
      it settled leaves resolv.conf unlocked and unmarked. */
  lemma InterruptBeforeSettled(s: State, sc: Scenario, k: nat, validIP: string -> bool)
    requires k <= |Preflight(sc) + Joining(sc)|
    requires Add(UnlockResolvConf) in Program(sc)[..k]
    ensures var at := PerformAll(s, Program(sc)[..k], validIP);
            !AfterInterrupt(at, validIP).immutable && !AfterInterrupt(at, validIP).owned
  {
    var acts := Program(sc)[..k];
    NothingSettledYet(sc);
    assert acts == (Preflight(sc) + Joining(sc))[..k];
    AddedStays(s, acts, validIP);
    var at := PerformAll(s, acts, validIP);
    var e :| e in at.entries && e.action.UnlockResolvConf?;
    ReverseHas(at.entries, e);
    CleanupsOnlyUnlock(at.dns, Reverse(at.entries), validIP);
  }

  lemma {:induction false} EventsAreQuiet(es: seq<Event>)
    ensures forall a :: a in Events(es) ==> a.Resolv?
  {
    if es != [] {
      EventsAreQuiet(es[1..]);
    }
  }

  lemma NothingSettledYet(sc: Scenario)
    ensures Settled !in Preflight(sc) + Joining(sc)
  {
    EventsAreQuiet(sc.teardown);
    if !sc.NotLoaded? {
      EventsAreQuiet(sc.leases);
    }
  }

  /** The event sets the immutable bit or the marker. */
  predicate Locks(e: Event) {
    e.LockDNS? || e.SetDNS? || e.ConnectEnd?
  }

  predicate LocksAct(a: Act) {
    a.Resolv? && Locks(a.event)
  }

  /** While the link comes up, leases and others write, but nobody locks. */
  ghost predicate NobodyLocks(sc: Scenario) {
    !sc.NotLoaded? ==> forall e :: e in sc.leases ==> !Locks(e)
  }

  lemma {:induction false} NoLockIn(es: seq<Event>)
    requires forall e :: e in es ==> !Locks(e)
    ensures forall a :: a in Events(es) ==> !LocksAct(a)
  {
    if es != [] {
      assert es[0] in es && forall e :: e in es[1..] ==> e in es;
      NoLockIn(es[1..]);
    }
  }

  /** Every act of this run that locks has the registration of its unlock before it. */
  lemma UnlockComesFirst(sc: Scenario, i: nat)
    requires NobodyLocks(sc) && i < |Joining(sc)| && LocksAct(Joining(sc)[i])
    ensures Add(UnlockResolvConf) in Joining(sc)[..i]
  {
    var acts := Joining(sc);
    match sc
    case NotLoaded(_) =>
    case PlainSSID(_, _, joined, leases, _) =>
      NoLockIn(leases);
      var head := [Add(AbortWiFi)] + Events(leases);
      var k := |head|;
      forall j | 0 <= j < k
        ensures !LocksAct(acts[j])
      {
        assert acts[j] == head[j] && head[j] in head;
      }
      if joined {
        assert acts == head + [Add(UnlockResolvConf), Resolv(LockDNS), Quiet];
        assert acts[k] == Add(UnlockResolvConf) && i > k;
        assert acts[..i][k] == acts[k];
      }
    case Configured(_, _, _, _, _, _, _, _) =>
      assert acts[1] == Add(UnlockResolvConf) && i > 1;
      assert acts[..i][1] == acts[1];
  }

  /** Hence an interrupt at any point after this run locked anything, and before
      it settled, leaves resolv.conf unlocked and unmarked. */
  lemma InterruptNeverStrands(s: State, sc: Scenario, i: nat, k: nat, validIP: string -> bool)
    requires NobodyLocks(sc) && |Preflight(sc)| <= i < k <= |Preflight(sc) + Joining(sc)|
    requires LocksAct(Program(sc)[i])
    ensures var at := PerformAll(s, Program(sc)[..k], validIP);
            !AfterInterrupt(at, validIP).immutable && !AfterInterrupt(at, validIP).owned
  {
    var head, join := Preflight(sc), Joining(sc);
    ProgramStarts(sc, k);
    FoundBefore(head, join, i, k, Add(UnlockResolvConf));
    UnlockComesFirst(sc, i - |head|);
    InterruptBeforeSettled(s, sc, k, validIP);
  }

  lemma ProgramStarts(sc: Scenario, k: nat)
    requires k <= |Preflight(sc) + Joining(sc)|
    ensures k <= |Program(sc)| && Program(sc)[..k] == (Preflight(sc) + Joining(sc))[..k]
    ensures forall i :: 0 <= i < k ==> Program(sc)[i] == (Preflight(sc) + Joining(sc))[i]
  {
  }

  lemma FoundBefore(head: seq<Act>, join: seq<Act>, i: nat, k: nat, a: Act)
    requires |head| <= i < k <= |head + join|
    ensures (head + join)[i] == join[i - |head|]
    ensures a in join[..i - |head|] ==> a in (head + join)[..k]
  {
    if a in join[..i - |head|] {
      var j :| 0 <= j < i - |head| && join[..i - |head|][j] == a;
      assert (head + join)[..k][|head| + j] == a;
    }
  }

  /** An interrupt after the link was settled runs none of this run's cleanups:
      what it drains is what was registered before the run, so a connection
      that came up keeps its DNS lock. */
  lemma InterruptAfterSettled(s: State, sc: Scenario, k: nat, validIP: string -> bool)
    requires Begins(s) && Joined(sc)
    requires |Preflight(sc) + Joining(sc)| < k <= |Program(sc)|
    ensures PerformAll(s, Program(sc)[..k], validIP).entries == s.entries
    ensures s.entries == [] ==>
              var at := PerformAll(s, Program(sc)[..k], validIP);
              AfterInterrupt(at, validIP) == at.dns
  {
    var head := Preflight(sc) + Joining(sc);
    var rest := (Events(sc.after) + [Settled])[..k - |head| - 1];
    assert Program(sc)[..k] == head + ([Settled] + rest);
    forall a | a in rest
      ensures !a.Add?
    {
      EventsAreQuiet(sc.after);
      assert a in Events(sc.after) + [Settled];
    }
    OnceSettled(s, head, rest, validIP);
  }

  lemma OnceSettled(s: State, head: seq<Act>, rest: seq<Act>, validIP: string -> bool)
    requires Begins(s) && forall a :: a in rest ==> !a.Add?
    ensures PerformAll(s, head + ([Settled] + rest), validIP).entries == s.entries
  {
    PerformAppend(s, head, [Settled] + rest, validIP);
    var at := PerformAll(s, head, validIP);
    StepsKeepOwn(s.entries, s, head, validIP);
    SettledRestores(s.entries, at);
    assert ([Settled] + rest)[1..] == rest;
    SettledStays(Perform(at, Settled, validIP), rest, validIP);
  }

  /** An interrupt before this run starts changing a link finds none of its
      cleanups: the connection and DNS of before are left alone. */
  lemma InterruptDuringPreflight(s: State, sc: Scenario, k: nat, validIP: string -> bool)
    requires Begins(s) && k <= |Preflight(sc)|
    ensures PerformAll(s, Program(sc)[..k], validIP).entries == s.entries
  {
    var acts := Preflight(sc)[..k];
    assert Program(sc)[..k] == acts;
    forall a | a in acts
      ensures !a.Add?
    {
      EventsAreQuiet(sc.teardown);
      assert a in Preflight(sc);
    }
    SettledStays(s, acts, validIP);
  }

  lemma {:induction false} SettledStays(s: State, acts: seq<Act>, validIP: string -> bool)
    requires s.undo == [] && forall a :: a in acts ==> !a.Add?
    ensures PerformAll(s, acts, validIP).entries == s.entries
    decreases |acts|
  {
    if acts != [] {
      assert acts[0] in acts && forall a :: a in acts[1..] ==> a in acts;
      SettledStays(Perform(s, acts[0], validIP), acts[1..], validIP);
    }
  }

  // ---- how a connect leaves resolv.conf

  /** What the acts do to resolv.conf, without the rest. */
  function Seen(acts: seq<Act>): seq<Event> {
    if acts == [] then [] else (if acts[0].Resolv? then [acts[0].event] else []) + Seen(acts[1..])
  }

  lemma {:induction false} SeenAppend(a: seq<Act>, b: seq<Act>)
    ensures Seen(a + b) == Seen(a) + Seen(b)
  {
    if a == [] {
      assert a + b == b;
    } else {
      assert (a + b)[0] == a[0] && (a + b)[1..] == a[1..] + b;
      SeenAppend(a[1..], b);
    }
  }

  lemma {:induction false} SeenEvents(es: seq<Event>)
    ensures Seen(Events(es)) == es
  {
    if es != [] {
      assert Events(es)[1..] == Events(es[1..]);
      SeenEvents(es[1..]);
    }
  }

  lemma {:induction false} SeenDecides(s: State, acts: seq<Act>, validIP: string -> bool)
    ensures PerformAll(s, acts, validIP).dns == Dns.Run(s.dns, Seen(acts), validIP)
    decreases |acts|
  {
    if acts != [] {
      SeenDecides(Perform(s, acts[0], validIP), acts[1..], validIP);
      if acts[0].Resolv? {
        assert Seen(acts)[0] == acts[0].event && Seen(acts)[1..] == Seen(acts[1..]);
      } else {
        assert Seen(acts) == Seen(acts[1..]);
      }
    }
  }

  lemma SeenPreflight(sc: Scenario)
    ensures Seen(Preflight(sc)) == sc.teardown + if sc.PlainSSID? then [ClearDNS(sc.cleared)] else []
  {
    var last := if sc.PlainSSID? then Resolv(ClearDNS(sc.cleared)) else Quiet;
    SeenEvents(sc.teardown);
    SeenAppend(Events(sc.teardown), [last]);
  }

  lemma SeenSettled(before: seq<Act>, after: seq<Event>)
    ensures Seen(before + ([Settled] + Events(after) + [Settled])) == Seen(before) + after
  {
    var end := [Settled];
    SeenEvents(after);
    SeenAppend(end, Events(after));
    SeenAppend(end + Events(after), end);
    SeenAppend(before, end + Events(after) + end);
  }

  lemma SeenOnceJoined(sc: Scenario)
    requires Joined(sc)
    ensures Seen(Program(sc)) == Seen(Preflight(sc)) + Seen(Joining(sc)) + sc.after
  {
    SeenSettled(Preflight(sc) + Joining(sc), sc.after);
    SeenAppend(Preflight(sc), Joining(sc));
  }

  lemma SeenJoiningPlain(sc: Scenario)
    requires sc.PlainSSID? && sc.joined
    ensures Seen(Joining(sc)) == sc.leases + [LockDNS]
  {
    SeenEvents(sc.leases);
    SeenAppend([Add(AbortWiFi)], Events(sc.leases));
    SeenAppend([Add(AbortWiFi)] + Events(sc.leases), [Add(UnlockResolvConf), Resolv(LockDNS), Quiet]);
    SeenThree(Add(UnlockResolvConf), Resolv(LockDNS), Quiet);
  }

  /** A plain-SSID connect that joined, as resolv.conf sees it. */
  lemma SeenPlain(sc: Scenario)
    requires sc.PlainSSID? && sc.joined
    ensures Seen(Program(sc)) == sc.teardown + [ClearDNS(sc.cleared)] + sc.leases + [LockDNS] + sc.after
  {
    SeenPreflight(sc);
    SeenJoiningPlain(sc);
    SeenOnceJoined(sc);
  }

  lemma SeenThree(a: Act, b: Act, c: Act)
    requires !a.Resolv? && b.Resolv? && !c.Resolv?
    ensures Seen([a, b, c]) == [b.event]
  {
    assert [a, b, c] == [a] + [b] + [c];
    SeenAppend([a] + [b], [c]);
    SeenAppend([a], [b]);
  }

  /** A plain-SSID connect that joined leaves resolv.conf marked, and locked if
      there is one: renewals and outside writers afterwards do not change it. */
  lemma PlainEndsLocked(s: State, sc: Scenario, validIP: string -> bool)
    requires sc.PlainSSID? && sc.joined && forall e :: e in sc.after ==> e.Lease? || e.OutsideWrite?
    ensures var joined := Dns.Run(s.dns, sc.teardown + [ClearDNS(sc.cleared)] + sc.leases, validIP);
            var end := PerformAll(s, Program(sc), validIP).dns;
            end.owned && (joined.content.Some? ==> end == ResolvConf(joined.content, true, true))
  {
    SeenPlain(sc);
    SeenDecides(s, Program(sc), validIP);
    var before := sc.teardown + [ClearDNS(sc.cleared)] + sc.leases;
    RunAppend(s.dns, before + [LockDNS], sc.after, validIP);
    RunAppend(s.dns, before, [LockDNS], validIP);
    var joined := Dns.Run(s.dns, before, validIP);
    LockMeans(joined, validIP);
    LockedStays(Dns.Step(joined, LockDNS, validIP), sc.after, validIP);
  }

  lemma {:induction false} LockedStays(d: ResolvConf, es: seq<Event>, validIP: string -> bool)
    requires d.owned && forall e :: e in es ==> e.Lease? || e.OutsideWrite?
    ensures var r := Dns.Run(d, es, validIP); r.owned && (d.immutable ==> r == d)
    decreases |es|
  {
    if es != [] {
      assert es[0] in es && forall e :: e in es[1..] ==> e in es;
      LockedStays(Dns.Step(d, es[0], validIP), es[1..], validIP);
    }
  }

  /** Its lease is what stays, whoever had written resolv.conf before. */
  lemma PlainTakesTheLease(s: State, sc: Scenario, lease: string, validIP: string -> bool)
    requires LockedIsOwned(s.dns)
    requires sc.PlainSSID? && sc.joined && forall e :: e in sc.after ==> e.Lease? || e.OutsideWrite?
    requires sc.cleared.Written? && sc.leases == [Lease(lease)]
    ensures PerformAll(s, Program(sc), validIP).dns == ResolvConf(Some(lease), true, true)
  {
    PlainEndsLocked(s, sc, validIP);
    LeaseAfterClear(s.dns, sc.teardown, lease, validIP);
  }

  lemma LeaseAfterClear(d: ResolvConf, teardown: seq<Event>, lease: string, validIP: string -> bool)
    requires LockedIsOwned(d)
    ensures Dns.Run(d, teardown + [ClearDNS(Written)] + [Lease(lease)], validIP).content == Some(lease)
  {
    var torn := Dns.Run(d, teardown, validIP);
    LockedIsOwnedAlways(d, teardown, validIP);
    RunAppend(d, teardown + [ClearDNS(Written)], [Lease(lease)], validIP);
    RunAppend(d, teardown, [ClearDNS(Written)], validIP);
    var cleared := Dns.Step(torn, ClearDNS(Written), validIP);
    ClearMeans(torn, Written, validIP);
    assert !cleared.owned && !cleared.immutable;
  }

  lemma SeenJoiningConfigured(sc: Scenario)
    requires sc.Configured? && sc.begun && sc.linkOk
    ensures Seen(Joining(sc))
         == [ConnectStart(sc.dns.servers, sc.dns.first)] + sc.leases
            + [ConnectEnd(sc.dns.servers, sc.dns.readOk, sc.dns.last)]
  {
    var abort := Add(if sc.wired then AbortWired(sc.iface) else AbortWiFi);
    SeenLinking(sc.dns, sc.leases);
    SeenTwo(abort, Add(UnlockResolvConf));
    SeenAppend([abort, Add(UnlockResolvConf)], Linking(sc.dns, true, sc.leases));
  }

  lemma SeenLinking(p: DnsPlan, leases: seq<Event>)
    ensures Seen(Linking(p, true, leases))
         == [ConnectStart(p.servers, p.first)] + leases + [ConnectEnd(p.servers, p.readOk, p.last)]
  {
    SeenEvents(leases);
    SeenAppend([Start(p)], Events(leases));
    SeenAppend([Start(p)] + Events(leases), [End(p), Quiet]);
    SeenTwo(End(p), Quiet);
  }

  lemma SeenTwo(a: Act, b: Act)
    requires !b.Resolv?
    ensures Seen([a, b]) == if a.Resolv? then [a.event] else []
  {
    assert [a, b] == [a] + [b];
    SeenAppend([a], [b]);
  }

  lemma RegroupAll(a: seq<Event>, b: seq<Event>, c: seq<Event>, d: seq<Event>, e: seq<Event>)
    ensures (a + []) + (b + c + d) + e == a + b + c + d + e
  {
    assert a + (b + c) == a + b + c && a + [] == a;
  }

  /** A configured connect whose link came up, as resolv.conf sees it. */
  lemma SeenConfigured(sc: Scenario)
    requires sc.Configured? && sc.begun && sc.linkOk
    ensures Seen(Program(sc))
         == sc.teardown + [ConnectStart(sc.dns.servers, sc.dns.first)] + sc.leases
            + [ConnectEnd(sc.dns.servers, sc.dns.readOk, sc.dns.last)] + sc.after
  {
    SeenPreflight(sc);
    SeenJoiningConfigured(sc);
    SeenOnceJoined(sc);
    RegroupAll(sc.teardown, [ConnectStart(sc.dns.servers, sc.dns.first)], sc.leases,
               [ConnectEnd(sc.dns.servers, sc.dns.readOk, sc.dns.last)], sc.after);
  }

  /** A configured connect that got its link leaves what bringing the link up
      left, locked and marked whenever that step locked it. */
  lemma ConfiguredEnds(s: State, sc: Scenario, validIP: string -> bool)
    requires sc.Configured? && sc.begun && sc.linkOk && forall e :: e in sc.after ==> e.Lease? || e.OutsideWrite?
    ensures var p, end := sc.dns, PerformAll(s, Program(sc), validIP).dns;
            var joined := Dns.Run(s.dns, sc.teardown + [ConnectStart(p.servers, p.first)] + sc.leases, validIP);
            var locked := Dns.Step(joined, ConnectEnd(p.servers, p.readOk, p.last), validIP);
            locked.immutable && locked.owned ==> end == locked
  {
    SeenConfigured(sc);
    SeenDecides(s, Program(sc), validIP);
    var p := sc.dns;
    var end := ConnectEnd(p.servers, p.readOk, p.last);
    var before := sc.teardown + [ConnectStart(p.servers, p.first)] + sc.leases;
    RunAppend(s.dns, before + [end], sc.after, validIP);
    RunAppend(s.dns, before, [end], validIP);
    var joined := Dns.Run(s.dns, before, validIP);
    var locked := Dns.Step(joined, end, validIP);
    if locked.immutable && locked.owned {
      LockedStays(locked, sc.after, validIP);
    }
  }

  /** Its own servers end in force, locked and marked. */
  lemma ConfiguredEndsLocked(s: State, sc: Scenario, validIP: string -> bool)
    requires AddressText(validIP)
    requires sc.Configured? && sc.begun && sc.linkOk && forall e :: e in sc.after ==> e.Lease? || e.OutsideWrite?
    requires sc.dns.servers != [] && sc.dns.servers != ["dhcp"]
    requires sc.dns.last.Written? && exists a :: a in sc.dns.servers && validIP(a)
    ensures var end := PerformAll(s, Program(sc), validIP).dns;
            NameserversOf(end) == Valid(sc.dns.servers, validIP) && end.immutable && end.owned
  {
    var p := sc.dns;
    var joined := Dns.Run(s.dns, sc.teardown + [ConnectStart(p.servers, p.first)] + sc.leases, validIP);
    ConfiguredEnds(s, sc, validIP);
    CustomEndMeans(joined, p.servers, p.readOk, p.last, validIP);
  }

  /** Without servers of its own the lease does. */
  lemma ConfiguredTakesTheLease(s: State, sc: Scenario, lease: string, validIP: string -> bool)
    requires sc.Configured? && sc.begun && sc.linkOk && forall e :: e in sc.after ==> e.Lease? || e.OutsideWrite?
    requires sc.dns.servers == [] || sc.dns.servers == ["dhcp"]
    requires sc.dns.readOk && sc.leases == [Lease(lease)] && Nameservers(lease) != []
    ensures PerformAll(s, Program(sc), validIP).dns == ResolvConf(Some(lease), true, true)
  {
    var p := sc.dns;
    ConfiguredEnds(s, sc, validIP);
    LeaseTaken(s.dns, sc.teardown, p, lease, validIP);
    DhcpEndMeans(ResolvConf(Some(lease), false, false), p.servers, p.readOk, p.last, validIP);
  }

  lemma LeaseTaken(d: ResolvConf, teardown: seq<Event>, p: DnsPlan, lease: string, validIP: string -> bool)
    requires p.servers == [] || p.servers == ["dhcp"]
    ensures var before := teardown + [ConnectStart(p.servers, p.first)] + [Lease(lease)];
            Dns.Run(d, before, validIP) == ResolvConf(Some(lease), false, false)
  {
    var start := [ConnectStart(p.servers, p.first)];
    RunAppend(d, teardown + start, [Lease(lease)], validIP);
    RunAppend(d, teardown, start, validIP);
    var torn := Dns.Run(d, teardown, validIP);
    StartMeans(torn, p.servers, p.first);
  }

  // ---- the command

  class App {
    const registry: CleanupRegistry
    const netMgr: Resolver
    var undo: seq<nat>

    constructor (registry: CleanupRegistry, netMgr: Resolver)
      ensures this.registry == registry && this.netMgr == netMgr && undo == []
    {
      this.registry, this.netMgr, undo := registry, netMgr, [];
    }

    function View(): State
      reads this, registry, netMgr
    {
      State(registry.entries, registry.next, undo, netMgr.State())
    }

    ghost predicate Valid()
      reads this, netMgr
    {
      Plausible(netMgr.State())
    }

    method RegisterCleanup(action: Action)
      requires Valid()
      modifies this, registry
      ensures Valid() && View() == Perform(old(View()), Add(action), netMgr.validIP)
    {
      var id := registry.Register(action);
      undo := undo + [id];
    }

    method Settle()
      requires Valid()
      modifies this, registry
      ensures Valid() && View() == Perform(old(View()), Settled, netMgr.validIP)
    {
      for i := 0 to |undo|
        invariant Valid() && undo == old(undo) && netMgr.State() == old(netMgr.State())
        invariant registry.next == old(registry.next)
        invariant WithoutAll(old(registry.entries), undo) == WithoutAll(registry.entries, undo[i..])
      {
        assert undo[i..][0] == undo[i] && undo[i..][1..] == undo[i + 1..];
        registry.Deregister(undo[i]);
      }
      undo := [];
    }

    /** resolv.conf events of others: VPN teardown and attempt, leases, outside writers. */
    method Happen(e: Event)
      requires Valid()
      modifies netMgr
      ensures Valid() && View() == Perform(old(View()), Resolv(e), netMgr.validIP)
    {
      match e {
        case SetDNS(servers, write) => var _ := netMgr.SetDNS(servers, write);
        case ClearDNS(write) => var _ := netMgr.ClearDNS(write);
        case LockDNS => netMgr.LockDNS();
        case UnlockDNS => netMgr.UnlockDNS();
        case DHCPRenew => netMgr.ReleaseForRenew();
        case ConnectStart(servers, write) => netMgr.PrepareConnect(servers, write);
        case ConnectEnd(servers, readOk, write) => netMgr.FinishConnect(servers, readOk, write);
        case VpnUnlock => netMgr.UnlockForVPN();
        case Lease(text) =>
          if !netMgr.owned {
            var _ := netMgr.WriteFile(text, Written);
          }
        case OutsideWrite(result) =>
          if !netMgr.immutable {
            netMgr.content := result;
          }
      }
    }

    method HappenAll(es: seq<Event>)
      requires Valid()
      modifies netMgr
      ensures Valid() && View() == PerformAll(old(View()), Events(es), netMgr.validIP)
    {
      for i := 0 to |es|
        invariant Valid()
        invariant PerformAll(old(View()), Events(es), netMgr.validIP)
               == PerformAll(View(), Events(es[i..]), netMgr.validIP)
      {
        assert es[i..][0] == es[i] && es[i..][1..] == es[i + 1..];
        Happen(es[i]);
      }
    }

    /** The plain-SSID branch up to the lock. */
    method JoinPlain(joined: bool, leases: seq<Event>) returns (ok: bool)
      requires Valid()
      modifies this, registry, netMgr
      ensures Valid() && ok == joined
      ensures View() == PerformAll(old(View()), Joining(PlainSSID([], Written, joined, leases, [])), netMgr.validIP)
    {
      ghost var s0 := View();
      RegisterCleanup(AbortWiFi);
      HappenAll(leases);
      PerformAppend(s0, [Add(AbortWiFi)], Events(leases), netMgr.validIP);
      ghost var s1 := View();
      if !joined {
        assert [Add(AbortWiFi)] + Events(leases) + [] == [Add(AbortWiFi)] + Events(leases);
        return false;
      }
      RegisterCleanup(UnlockResolvConf);
      Happen(LockDNS);
      PerformAppend(
        s0, [Add(AbortWiFi)] + Events(leases), [Add(UnlockResolvConf), Resolv(LockDNS), Quiet], netMgr.validIP);
      ThreeSteps(s1, Add(UnlockResolvConf), Resolv(LockDNS), Quiet, netMgr.validIP);
      return true;
    }

    /** The configured branch up to the end of ConnectToConfiguredNetwork. */
    method JoinConfigured(wired: bool, iface: string, dns: DnsPlan, begun: bool, linkOk: bool, leases: seq<Event>)
      returns (ok: bool)
      requires Valid()
      modifies this, registry, netMgr
      ensures Valid() && ok == (begun && linkOk)
      ensures var sc := Configured([], wired, iface, dns, begun, linkOk, leases, []);
              View() == PerformAll(old(View()), Joining(sc), netMgr.validIP)
    {
      ghost var s0 := View();
      ghost var abort := if wired then AbortWired(iface) else AbortWiFi;
      if wired {
        RegisterCleanup(AbortWired(iface));
      } else {
        RegisterCleanup(AbortWiFi);
      }
      RegisterCleanup(UnlockResolvConf);
      ghost var first := [Add(abort), Add(UnlockResolvConf)];
      TwoSteps(s0, Add(abort), Add(UnlockResolvConf), netMgr.validIP);
      if !begun {
        assert first + [] == first;
        return false;
      }
      Link(dns, linkOk, leases);
      PerformAppend(s0, first, Linking(dns, linkOk, leases), netMgr.validIP);
      return linkOk;
    }

    /** ConnectToConfiguredNetwork once its interface is ready. */
    method Link(dns: DnsPlan, linkOk: bool, leases: seq<Event>)
      requires Valid()
      modifies netMgr
      ensures Valid() && View() == PerformAll(old(View()), Linking(dns, linkOk, leases), netMgr.validIP)
    {
      ghost var s0 := View();
      ghost var start := [Start(dns)];
      Happen(ConnectStart(dns.servers, dns.first));
      OneStep(s0, Start(dns), netMgr.validIP);
      HappenAll(leases);
      PerformAppend(s0, start, Events(leases), netMgr.validIP);
      if !linkOk {
        assert start + Events(leases) + [] == start + Events(leases);
        return;
      }
      ghost var s1 := View();
      Happen(ConnectEnd(dns.servers, dns.readOk, dns.last));
      PerformAppend(s0, start + Events(leases), [End(dns), Quiet], netMgr.validIP);
      TwoSteps(s1, End(dns), Quiet, netMgr.validIP);
    }

    method Connect(sc: Scenario)
      requires Valid()
      modifies this, registry, netMgr
      ensures Valid() && View() == PerformAll(old(View()), Program(sc), netMgr.validIP)
    {
      ghost var s0 := View();
      HappenAll(sc.teardown);
      ghost var s1 := View();
      if sc.PlainSSID? {
        Happen(ClearDNS(sc.cleared));
      }
      OneStep(s1, if sc.PlainSSID? then Resolv(ClearDNS(sc.cleared)) else Quiet, netMgr.validIP);
      PerformAppend(
        s0, Events(sc.teardown), if sc.PlainSSID? then [Resolv(ClearDNS(sc.cleared))] else [Quiet], netMgr.validIP);
      ghost var s2 := View();
      var joined := false;
      match sc {
        case NotLoaded(_) =>
        case PlainSSID(_, _, joins, leases, _) =>
          joined := JoinPlain(joins, leases);
        case Configured(_, wired, iface, dns, begun, linkOk, leases, _) =>
          joined := JoinConfigured(wired, iface, dns, begun, linkOk, leases);
      }
      PerformAppend(s0, Preflight(sc), Joining(sc), netMgr.validIP);
      ghost var s3 := View();
      assert s3 == PerformAll(s0, Preflight(sc) + Joining(sc), netMgr.validIP);
      Settle();
      OneStep(s3, Settled, netMgr.validIP);
      if joined {
        ghost var s4 := View();
        HappenAll(sc.after);
        PerformAppend(s3, [Settled], Events(sc.after), netMgr.validIP);
        ghost var s5 := View();
        Settle();
        OneStep(s5, Settled, netMgr.validIP);
        PerformAppend(s3, [Settled] + Events(sc.after), [Settled], netMgr.validIP);
      }
      PerformAppend(s0, Preflight(sc) + Joining(sc),
                    if Joined(sc) then [Settled] + Events(sc.after) + [Settled] else [Settled], netMgr.validIP);
    }
  }

  lemma OneStep(s: State, a: Act, validIP: string -> bool)
    ensures PerformAll(s, [a], validIP) == Perform(s, a, validIP)
  {
    assert [a][1..] == [];
  }

  lemma TwoSteps(s: State, a: Act, b: Act, validIP: string -> bool)
    ensures PerformAll(s, [a, b], validIP) == Perform(Perform(s, a, validIP), b, validIP)
  {
    assert [a, b][1..] == [b];
    OneStep(Perform(s, a, validIP), b, validIP);
  }

  lemma ThreeSteps(s: State, a: Act, b: Act, c: Act, validIP: string -> bool)
    ensures PerformAll(s, [a, b, c], validIP) == Perform(Perform(Perform(s, a, validIP), b, validIP), c, validIP)
  {
    assert [a, b, c][1..] == [b, c];
    TwoSteps(Perform(s, a, validIP), b, c, validIP);
  }
}
