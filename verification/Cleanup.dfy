/** The interrupt cleanup registry of cmd/net: entries are taken off under a
    lock, so registering, deregistering and draining are atomic steps, while the
    cleanups of a drain start one by one between the steps of everyone else. */
module Cleanup {

  /** What RunConnect registers. */
  datatype Action = AbortWiFi | AbortWired(iface: string) | UnlockResolvConf

  /** A registered cleanup; id stands for the entry's pointer. */
  datatype Entry = Entry(id: nat, action: Action)

  /** How often an id occurs. */
  function Count(es: seq<Entry>, id: nat): nat {
    if es == [] then 0 else (if es[0].id == id then 1 else 0) + Count(es[1..], id)
  }

  function Reverse(es: seq<Entry>): (out: seq<Entry>)
    ensures |out| == |es|
  {
    if es == [] then [] else Reverse(es[1..]) + [es[0]]
  }

  lemma {:induction false} ReverseAt(es: seq<Entry>, i: nat)
    requires i < |es|
    ensures Reverse(es)[i] == es[|es| - 1 - i]
  {
    if i < |es| - 1 {
      ReverseAt(es[1..], i);
    }
  }

  /** The entry with that id leaves; the rest keeps its order. */
  function Without(es: seq<Entry>, id: nat): seq<Entry> {
    if es == [] then []
    else if es[0].id == id then es[1..]
    else [es[0]] + Without(es[1..], id)
  }

  // ---- the registry as a state machine

  /** A drain in progress: what it took, in running order, and how many it has started. */
  datatype Drain = Drain(taken: seq<Entry>, started: nat)

  datatype Registry = Registry(next: nat, entries: seq<Entry>, dropped: seq<Entry>, drains: seq<Drain>)

  datatype Step = Register(action: Action) | Deregister(id: nat) | Take | StartNext(drain: nat)

  function Apply(s: Registry, step: Step): Registry {
    match step
    case Register(a) => s.(next := s.next + 1, entries := s.entries + [Entry(s.next, a)])
    case Deregister(id) =>
      s.(entries := Without(s.entries, id), dropped := s.dropped + Found(s.entries, id))
    case Take => s.(entries := [], drains := s.drains + [Drain(Reverse(s.entries), 0)])
    case StartNext(k) =>
      if k < |s.drains| && s.drains[k].started < |s.drains[k].taken|
      then s.(drains := s.drains[k := s.drains[k].(started := s.drains[k].started + 1)])
      else s
  }

  function Found(es: seq<Entry>, id: nat): seq<Entry> {
    if es == [] then []
    else if es[0].id == id then [es[0]]
    else Found(es[1..], id)
  }

  function ApplyAll(s: Registry, steps: seq<Step>): Registry
    decreases |steps|
  {
    if steps == [] then s else ApplyAll(Apply(s, steps[0]), steps[1..])
  }

  const EMPTY := Registry(0, [], [], [])

  function CountTaken(drains: seq<Drain>, id: nat): nat {
    if drains == [] then 0 else CountTaken(drains[..|drains| - 1], id) + Count(drains[|drains| - 1].taken, id)
  }

  /** In how many places an id is: pending, deregistered, or taken by a drain. */
  function Places(s: Registry, id: nat): nat {
    Count(s.entries, id) + Count(s.dropped, id) + CountTaken(s.drains, id)
  }

  ghost predicate Increasing(es: seq<Entry>) {
    forall i, j :: 0 <= i < j < |es| ==> es[i].id < es[j].id
  }

  ghost predicate Decreasing(es: seq<Entry>) {
    forall i, j :: 0 <= i < j < |es| ==> es[i].id > es[j].id
  }

  /** Each registered cleanup is in exactly one place, registration order is
      kept while pending and reversed in every drain. */
  ghost predicate Orderly(s: Registry) {
    && (forall id: nat :: Places(s, id) == if id < s.next then 1 else 0)
    && Increasing(s.entries)
    && (forall e :: e in s.entries ==> e.id < s.next)
    && (forall d :: d in s.drains ==> Decreasing(d.taken) && d.started <= |d.taken|)
  }

  lemma {:induction false} CountAppend(a: seq<Entry>, b: seq<Entry>, id: nat)
    ensures Count(a + b, id) == Count(a, id) + Count(b, id)
  {
    if a == [] {
      assert a + b == b;
    } else {
      assert (a + b)[1..] == a[1..] + b;
      CountAppend(a[1..], b, id);
    }
  }

  lemma {:induction false} CountReverse(es: seq<Entry>, id: nat)
    ensures Count(Reverse(es), id) == Count(es, id)
  {
    if es != [] {
      CountReverse(es[1..], id);
      CountAppend(Reverse(es[1..]), [es[0]], id);
    }
  }

  lemma {:induction false} CountSplit(es: seq<Entry>, id: nat, x: nat)
    ensures Count(es, x) == Count(Without(es, id), x) + Count(Found(es, id), x)
  {
    if es != [] && es[0].id != id {
      CountSplit(es[1..], id, x);
      assert ([es[0]] + Without(es[1..], id))[1..] == Without(es[1..], id);
    }
  }

  lemma {:induction false} CountMember(es: seq<Entry>, i: nat)
    requires i < |es|
    ensures Count(es, es[i].id) >= 1
  {
    if i > 0 {
      CountMember(es[1..], i - 1);
    }
  }

  /** A deregister removes its own entry, wherever it stands, or nothing. */
  lemma {:induction false} WithoutRemovesOne(es: seq<Entry>, id: nat) returns (i: nat)
    ensures i <= |es| && (forall k :: 0 <= k < i ==> es[k].id != id)
    ensures i < |es| ==> es[i].id == id && Without(es, id) == es[..i] + es[i + 1..]
    ensures i == |es| ==> Without(es, id) == es
  {
    if es == [] || es[0].id == id {
      i := 0;
    } else {
      var k := WithoutRemovesOne(es[1..], id);
      i := k + 1;
      if k < |es[1..]| {
        assert es[..i] + es[i + 1..] == [es[0]] + (es[1..][..k] + es[1..][k + 1..]);
      }
    }
  }

  lemma WithoutKeepsOrder(es: seq<Entry>, id: nat)
    requires Increasing(es)
    ensures Increasing(Without(es, id)) && forall e :: e in Without(es, id) ==> e in es
  {
    var i := WithoutRemovesOne(es, id);
  }

  lemma ReverseIsDecreasing(es: seq<Entry>)
    requires Increasing(es)
    ensures Decreasing(Reverse(es))
  {
    forall i, j | 0 <= i < j < |es|
      ensures Reverse(es)[i].id > Reverse(es)[j].id
    {
      ReverseAt(es, i);
      ReverseAt(es, j);
    }
  }

  lemma {:induction false} CountTakenUpdate(drains: seq<Drain>, k: nat, d: Drain, id: nat)
    requires k < |drains| && d.taken == drains[k].taken
    ensures CountTaken(drains[k := d], id) == CountTaken(drains, id)
  {
    var n := |drains| - 1;
    if k < n {
      assert drains[k := d][..n] == drains[..n][k := d];
      CountTakenUpdate(drains[..n], k, d, id);
    } else {
      assert drains[k := d][..n] == drains[..n];
    }
  }

  /** Registering adds one place for the new id; every other step moves ids around. */
  lemma StepPlaces(s: Registry, step: Step, id: nat)
    ensures Places(Apply(s, step), id) == Places(s, id) + if step.Register? && id == s.next then 1 else 0
  {
    match step {
      case Register(a) =>
        CountAppend(s.entries, [Entry(s.next, a)], id);
      case Deregister(x) =>
        CountSplit(s.entries, x, id);
        CountAppend(s.dropped, Found(s.entries, x), id);
      case Take =>
        CountReverse(s.entries, id);
        var t := Apply(s, Take);
        assert t.drains[..|t.drains| - 1] == s.drains;
      case StartNext(k) =>
        if k < |s.drains| && s.drains[k].started < |s.drains[k].taken| {
          CountTakenUpdate(s.drains, k, s.drains[k].(started := s.drains[k].started + 1), id);
        }
    }
  }

  lemma StepIsOrderly(s: Registry, step: Step)
    requires Orderly(s)
    ensures Orderly(Apply(s, step))
  {
    var t := Apply(s, step);
    forall id: nat
      ensures Places(t, id) == if id < t.next then 1 else 0
    {
      StepPlaces(s, step, id);
    }
    match step {
      case Register(a) =>
      case Deregister(id) => WithoutKeepsOrder(s.entries, id);
      case Take => ReverseIsDecreasing(s.entries);
      case StartNext(k) =>
        if k < |s.drains| {
          assert s.drains[k] in s.drains;
        }
    }
  }

  /** In every interleaving each registered cleanup is in exactly one of
      pending, deregistered or taken by one drain. */
  lemma {:induction false} EveryInterleavingIsOrderly(s: Registry, steps: seq<Step>)
    requires Orderly(s)
    ensures Orderly(ApplyAll(s, steps))
    decreases |steps|
  {
    if steps != [] {
      StepIsOrderly(s, steps[0]);
      EveryInterleavingIsOrderly(Apply(s, steps[0]), steps[1..]);
    }
  }

  lemma EmptyIsOrderly()
    ensures Orderly(EMPTY)
  {
  }

  /** A started cleanup stays started, and no later step changes what a drain
      took: across any interleaving a drain only moves on through its own list. */
  lemma {:induction false} DrainsOnlyMoveOn(s: Registry, steps: seq<Step>, k: nat)
    requires k < |s.drains|
    ensures k < |ApplyAll(s, steps).drains|
    ensures ApplyAll(s, steps).drains[k].taken == s.drains[k].taken
    ensures ApplyAll(s, steps).drains[k].started >= s.drains[k].started
    decreases |steps|
  {
    if steps != [] {
      DrainsOnlyMoveOn(Apply(s, steps[0]), steps[1..], k);
    }
  }

  function StartsOf(steps: seq<Step>, k: nat): nat {
    if steps == [] then 0 else StartsOf(steps[1..], k) + if steps[0] == StartNext(k) then 1 else 0
  }

  /** A drain that is given as many turns as it took entries has started them
      all, each once, whatever happened in between. */
  lemma {:induction false} DrainStartsAll(s: Registry, steps: seq<Step>, k: nat)
    requires k < |s.drains| && s.drains[k].started <= |s.drains[k].taken|
    ensures k < |ApplyAll(s, steps).drains|
    ensures var left := |s.drains[k].taken| - s.drains[k].started;
            ApplyAll(s, steps).drains[k].started ==
            s.drains[k].started + if StartsOf(steps, k) <= left then StartsOf(steps, k) else left
    decreases |steps|
  {
    if steps != [] {
      DrainStartsAll(Apply(s, steps[0]), steps[1..], k);
    }
  }

  lemma {:induction false} TakenHas(drains: seq<Drain>, k: nat, id: nat)
    requires k < |drains|
    ensures CountTaken(drains, id) >= Count(drains[k].taken, id)
  {
    var n := |drains| - 1;
    if k < n {
      TakenHas(drains[..n], k, id);
    }
  }

  lemma {:induction false} TakenTwice(drains: seq<Drain>, k: nat, m: nat, id: nat)
    requires k < m < |drains|
    ensures CountTaken(drains, id) >= Count(drains[k].taken, id) + Count(drains[m].taken, id)
  {
    var n := |drains| - 1;
    if m < n {
      TakenTwice(drains[..n], k, m, id);
    } else {
      TakenHas(drains[..n], k, id);
    }
  }

  /** Nothing is taken by two drains, or twice by one, or by a drain while it
      is pending or deregistered; so nothing starts twice. */
  lemma TakenAtMostOnce(s: Registry, k: nat, i: nat, m: nat, j: nat)
    requires Orderly(s) && k <= m < |s.drains| && (k, i) != (m, j)
    requires i < |s.drains[k].taken| && j < |s.drains[m].taken|
    ensures s.drains[k].taken[i].id != s.drains[m].taken[j].id
    ensures Count(s.entries, s.drains[k].taken[i].id) == 0 == Count(s.dropped, s.drains[k].taken[i].id)
  {
    assert s.drains[k] in s.drains;
    var id := s.drains[k].taken[i].id;
    CountMember(s.drains[k].taken, i);
    TakenHas(s.drains, k, id);
    assert Places(s, id) == 1;
    if k < m && id == s.drains[m].taken[j].id {
      CountMember(s.drains[m].taken, j);
      TakenTwice(s.drains, k, m, id);
    }
  }

  // ---- the registry itself

  class CleanupRegistry {
    var entries: seq<Entry>
    var next: nat

    constructor ()
      ensures entries == [] && next == 0
    {
      entries, next := [], 0;
    }

    /** register; the id is what the returned deregister function holds on to. */
    method Register(action: Action) returns (id: nat)
      modifies this
      ensures id == old(next) && next == old(next) + 1
      ensures entries == old(entries) + [Entry(id, action)]
    {
      id := next;
      next := next + 1;
      entries := entries + [Entry(id, action)];
    }

    method Deregister(id: nat)
      modifies this`entries
      ensures entries == Without(old(entries), id)
    {
      for i := 0 to |entries|
        invariant entries == old(entries)
        invariant Without(entries, id) == entries[..i] + Without(entries[i..], id)
      {
        assert entries[i..] == [entries[i]] + entries[i + 1..];
        if entries[i].id == id {
          entries := entries[..i] + entries[i + 1..];
          return;
        }
        assert entries[..i + 1] == entries[..i] + [entries[i]];
      }
    }

    /** run, up to the point where the lock is released. */
    method TakeAll() returns (pending: seq<Entry>)
      modifies this`entries
      ensures pending == Reverse(old(entries)) && entries == []
    {
      pending := [];
      var i := |entries|;
      while i > 0
        invariant 0 <= i <= |entries| && entries == old(entries)
        invariant pending == Reverse(entries[i..])
      {
        i := i - 1;
        assert entries[i..] == [entries[i]] + entries[i + 1..];
        pending := pending + [entries[i]];
      }
      assert entries[0..] == entries;
      entries := [];
    }
  }
}
