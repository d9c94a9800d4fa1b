/** Network lookup through aliases (pkg/config): GetNetworkConfig with its
    growing cache, and the depth-limited resolveAlias. */
module Aliases {
  import opened Strings

  /** A top-level entry of the config file: a block (None when it does not
      decode into a network) or a plain value, which is an alias when not empty. */
  datatype Entry<Net> = Block(net: Option<Net>) | Value(target: string)

  datatype Config<Net> = Config(entries: map<string, Entry<Net>>, hostname: Option<string>)

  datatype Result<Net> = Ok(net: Net) | Err

  const HOSTNAME := "$(hostname)"

  /** strings.ReplaceAll of the host placeholder. */
  function ReplaceHost(s: string, host: string): string {
    if s == "" then ""
    else if HOSTNAME <= s then
      assert |HOSTNAME| > 0;
      host + ReplaceHost(s[|HOSTNAME|..], host)
    else [s[0]] + ReplaceHost(s[1..], host)
  }

  /** The name an entry is looked up by; None when the host name is needed but unknown. */
  function Expand<Net>(c: Config<Net>, name: string): Option<string> {
    if Contains(name, HOSTNAME) then
      match c.hostname case Some(h) => Some(ReplaceHost(name, h)) case None => None
    else Some(name)
  }

  /** Every placeholder is replaced, the first one first. */
  lemma {:induction false} ReplacedFirst(s: string, k: nat, host: string)
    requires k <= |s| && "$(hostname)" <= s[k..] && forall i :: 0 <= i < k ==> !("$(hostname)" <= s[i..])
    ensures ReplaceHost(s, host) == s[..k] + host + ReplaceHost(s[k..][11..], host)
  {
    if k == 0 {
      assert s[0..] == s;
    } else {
      assert s[0..] == s && s[1..][k - 1..] == s[k..];
      forall i | 0 <= i < k - 1
        ensures !("$(hostname)" <= s[1..][i..])
      {
        assert s[1..][i..] == s[i + 1..];
      }
      ReplacedFirst(s[1..], k - 1, host);
      OneMoreKept(s, k, host, ReplaceHost(s[k..][11..], host));
    }
  }

  lemma OneMoreKept(s: string, k: nat, host: string, rest: string)
    requires 0 < k <= |s|
    ensures [s[0]] + (s[1..][..k - 1] + host + rest) == s[..k] + host + rest
  {
    assert s[..k] == [s[0]] + s[1..][..k - 1];
  }

  lemma {:induction false} ReplacedNone(s: string, host: string)
    requires forall i :: 0 <= i <= |s| ==> !("$(hostname)" <= s[i..])
    ensures ReplaceHost(s, host) == s
  {
    if s != "" {
      assert s[0..] == s;
      forall i | 0 <= i <= |s[1..]|
        ensures !("$(hostname)" <= s[1..][i..])
      {
        assert s[1..][i..] == s[i + 1..];
      }
      ReplacedNone(s[1..], host);
    }
  }

  /** Only a name with the placeholder needs the host name, and fails without. */
  lemma ExpandMeans<Net>(c: Config<Net>, name: string)
    ensures !Inside("$(hostname)", name) ==> Expand(c, name) == Some(name)
    ensures Inside("$(hostname)", name) && c.hostname.None? ==> Expand(c, name) == None
    ensures Inside("$(hostname)", name) && c.hostname.Some? ==>
              Expand(c, name) == Some(ReplaceHost(name, c.hostname.value))
  {
    ContainsIff(name, "$(hostname)");
  }

  /** resolveAlias: reads the cache, never writes it. */
  function ResolveAlias<Net>(c: Config<Net>, cache: map<string, Net>, name: string, depth: nat): Result<Net>
    decreases depth
  {
    if depth == 0 then Err
    else match Expand(c, name)
      case None => Err
      case Some(n) =>
        if n in cache then Ok(cache[n])
        else if n !in c.entries then Err
        else match c.entries[n]
          case Value(target) => if target != "" then ResolveAlias(c, cache, target, depth - 1) else Err
          case Block(None) => Err
          case Block(Some(net)) => Ok(net)
  }

  const MAX_DEPTH: nat := 5

  // ---- chains

  /** The name n hops after (expanded) name. */
  function Hop<Net>(c: Config<Net>, name: string): Option<string> {
    if name in c.entries && c.entries[name].Value? && c.entries[name].target != ""
    then Expand(c, c.entries[name].target) else None
  }

  function Walk<Net>(c: Config<Net>, name: string, n: nat): Option<string>
    decreases n
  {
    if n == 0 then Some(name)
    else match Hop(c, name) case None => None case Some(next) => Walk(c, next, n - 1)
  }

  predicate IsNetwork<Net>(c: Config<Net>, name: string) {
    name in c.entries && c.entries[name].Block? && c.entries[name].net.Some?
  }

  /** The network the chain from name ends at, n hops on. */
  ghost predicate EndsAfter<Net>(c: Config<Net>, name: string, n: nat, net: Net) {
    match Walk(c, name, n)
    case None => false
    case Some(last) => IsNetwork(c, last) && c.entries[last].net.value == net
  }

  ghost predicate EndsAt<Net>(c: Config<Net>, name: string, net: Net) {
    exists n: nat :: EndsAfter(c, name, n, net)
  }

  /** Every cached name holds the network its chain really ends at. */
  ghost predicate Truthful<Net(!new)>(c: Config<Net>, cache: map<string, Net>) {
    forall name :: name in cache ==> EndsAt(c, name, cache[name])
  }

  lemma {:induction false} WalkAdd<Net>(c: Config<Net>, name: string, m: nat, n: nat)
    ensures Walk(c, name, m + n) == match Walk(c, name, m) case None => None case Some(mid) => Walk(c, mid, n)
    decreases m
  {
    if m > 0 {
      match Hop(c, name)
      case None =>
      case Some(next) => WalkAdd(c, next, m - 1, n);
    }
  }

  /** A network is the end of every chain that reaches it. */
  lemma {:induction false} ChainEnds<Net>(c: Config<Net>, name: string, m: nat, a: Net, n: nat, b: Net)
    requires EndsAfter(c, name, m, a) && EndsAfter(c, name, n, b)
    ensures m == n && a == b
    decreases m
  {
    if m > 0 && n > 0 {
      var next := Hop(c, name).value;
      ChainEnds(c, next, m - 1, a, n - 1, b);
    }
  }

  lemma EndIsUnique<Net>(c: Config<Net>, name: string, a: Net, b: Net)
    requires EndsAt(c, name, a) && EndsAt(c, name, b)
    ensures a == b
  {
    var m: nat :| EndsAfter(c, name, m, a);
    var n: nat :| EndsAfter(c, name, n, b);
    ChainEnds(c, name, m, a, n, b);
  }

  lemma EndsLater<Net>(c: Config<Net>, name: string, net: Net)
    requires Hop(c, name).Some? && EndsAt(c, Hop(c, name).value, net)
    ensures EndsAt(c, name, net)
  {
    var n: nat :| EndsAfter(c, Hop(c, name).value, n, net);
    assert EndsAfter(c, name, n + 1, net);
  }

  // ---- one lookup

  /** Cached, or a network: where a lookup stops. */
  predicate Stops<Net>(c: Config<Net>, cache: map<string, Net>, name: string) {
    name in cache || IsNetwork(c, name)
  }

  ghost predicate WithinHops<Net>(c: Config<Net>, cache: map<string, Net>, name: string, hops: nat) {
    exists n: nat :: n <= hops && StopsAfter(c, cache, name, n)
  }

  predicate StopsAfter<Net>(c: Config<Net>, cache: map<string, Net>, name: string, n: nat) {
    match Walk(c, name, n) case None => false case Some(last) => Stops(c, cache, last)
  }

  /** GetNetworkConfig's answer for an expanded name. */
  function Answer<Net>(c: Config<Net>, cache: map<string, Net>, n: string): Result<Net> {
    if n in cache then Ok(cache[n])
    else if n !in c.entries then Err
    else match c.entries[n]
      case Value(target) => if target != "" then ResolveAlias(c, cache, target, MAX_DEPTH) else Err
      case Block(None) => Err
      case Block(Some(net)) => Ok(net)
  }

  /** A name, as resolveAlias sees it, resolves exactly when a cached name or a
      network is fewer than depth hops away, and to what its chain ends at. */
  lemma {:induction false} ResolveSpec<Net(!new)>(c: Config<Net>, cache: map<string, Net>, name: string, depth: nat)
    requires Truthful(c, cache)
    ensures var r := ResolveAlias(c, cache, name, depth);
            match Expand(c, name)
            case None => r == Err
            case Some(n) =>
              && (r.Ok? <==> depth > 0 && WithinHops(c, cache, n, depth - 1))
              && (r.Ok? ==> EndsAt(c, n, r.net))
    decreases depth
  {
    if depth > 0 && Expand(c, name).Some? {
      var n := Expand(c, name).value;
      if Stops(c, cache, n) {
        assert StopsAfter(c, cache, n, 0);
        assert IsNetwork(c, n) ==> EndsAfter(c, n, 0, c.entries[n].net.value);
        if n in cache && IsNetwork(c, n) {
          EndIsUnique(c, n, cache[n], c.entries[n].net.value);
        }
      } else {
        if Hop(c, n).Some? {
          ResolveSpec(c, cache, c.entries[n].target, depth - 1);
          if ResolveAlias(c, cache, name, depth).Ok? {
            EndsLater(c, n, ResolveAlias(c, cache, name, depth).net);
          }
        } else if n in c.entries && c.entries[n].Value? && c.entries[n].target != "" {
          ResolveSpec(c, cache, c.entries[n].target, depth - 1);
        }
        WithinHopsStep(c, cache, n, depth - 1);
      }
    }
  }

  lemma WithinHopsStep<Net>(c: Config<Net>, cache: map<string, Net>, n: string, hops: nat)
    requires !Stops(c, cache, n)
    ensures WithinHops(c, cache, n, hops) <==>
            hops > 0 && Hop(c, n).Some? && WithinHops(c, cache, Hop(c, n).value, hops - 1)
  {
    if WithinHops(c, cache, n, hops) {
      var k: nat :| k <= hops && StopsAfter(c, cache, n, k);
      assert StopsAfter(c, cache, Hop(c, n).value, k - 1);
    }
    if hops > 0 && Hop(c, n).Some? && WithinHops(c, cache, Hop(c, n).value, hops - 1) {
      var k: nat :| k <= hops - 1 && StopsAfter(c, cache, Hop(c, n).value, k);
      assert StopsAfter(c, cache, n, k + 1);
    }
  }

  /** A lookup succeeds exactly when a cached name or a network is at most five
      hops away, and then answers with the network the chain ends at. */
  lemma AnswerSpec<Net(!new)>(c: Config<Net>, cache: map<string, Net>, n: string)
    requires Truthful(c, cache)
    ensures Answer(c, cache, n).Ok? <==> WithinHops(c, cache, n, MAX_DEPTH)
    ensures Answer(c, cache, n).Ok? ==> EndsAt(c, n, Answer(c, cache, n).net)
  {
    if Stops(c, cache, n) {
      assert StopsAfter(c, cache, n, 0);
      assert IsNetwork(c, n) ==> EndsAfter(c, n, 0, c.entries[n].net.value);
    } else {
      WithinHopsStep(c, cache, n, MAX_DEPTH);
      if n in c.entries && c.entries[n].Value? && c.entries[n].target != "" {
        ResolveSpec(c, cache, c.entries[n].target, MAX_DEPTH);
        if Answer(c, cache, n).Ok? {
          EndsLater(c, n, Answer(c, cache, n).net);
        }
      }
    }
  }

  /** From a cache of networks only, a lookup succeeds exactly when a network is
      at most five hops away. */
  lemma FreshCacheReachesFiveHops<Net(!new)>(c: Config<Net>, cache: map<string, Net>, n: string)
    requires forall name :: name in cache ==> IsNetwork(c, name) && cache[name] == c.entries[name].net.value
    ensures Answer(c, cache, n).Ok? <==> exists k: nat, net :: k <= MAX_DEPTH && EndsAfter(c, n, k, net)
  {
    forall name | name in cache
      ensures EndsAt(c, name, cache[name])
    {
      assert EndsAfter(c, name, 0, cache[name]);
    }
    AnswerSpec(c, cache, n);
    if WithinHops(c, cache, n, MAX_DEPTH) {
      var k: nat :| k <= MAX_DEPTH && StopsAfter(c, cache, n, k);
      assert EndsAfter(c, n, k, c.entries[Walk(c, n, k).value].net.value);
    }
    if k: nat, net :| k <= MAX_DEPTH && EndsAfter(c, n, k, net) {
      assert StopsAfter(c, cache, n, k);
    }
  }

  // ---- sequences of lookups

  /** What a lookup leaves in the cache. */
  function Remember<Net>(c: Config<Net>, cache: map<string, Net>, name: string): map<string, Net> {
    match Expand(c, name)
    case None => cache
    case Some(n) => match Answer(c, cache, n) case Ok(net) => cache[n := net] case Err => cache
  }

  function RememberAll<Net>(c: Config<Net>, cache: map<string, Net>, names: seq<string>): map<string, Net>
    decreases |names|
  {
    if names == [] then cache else RememberAll(c, Remember(c, cache, names[0]), names[1..])
  }

  lemma RememberIsTruthful<Net(!new)>(c: Config<Net>, cache: map<string, Net>, name: string)
    requires Truthful(c, cache)
    ensures Truthful(c, Remember(c, cache, name))
    ensures forall n :: n in cache ==> n in Remember(c, cache, name) && Remember(c, cache, name)[n] == cache[n]
  {
    if Expand(c, name).Some? {
      AnswerSpec(c, cache, Expand(c, name).value);
    }
  }

  /** After any sequence of lookups the cache is still truthful, and has only grown. */
  lemma {:induction false} LookupsStayTruthful<Net(!new)>(c: Config<Net>, cache: map<string, Net>, names: seq<string>)
    requires Truthful(c, cache)
    ensures Truthful(c, RememberAll(c, cache, names))
    ensures forall n :: n in cache ==> n in RememberAll(c, cache, names) && RememberAll(c, cache, names)[n] == cache[n]
    decreases |names|
  {
    if names != [] {
      RememberIsTruthful(c, cache, names[0]);
      LookupsStayTruthful(c, Remember(c, cache, names[0]), names[1..]);
    }
  }

  /** Hence answers never change: once a name is found, it is found again with
      the same network, whatever was looked up in between. */
  lemma AnswersNeverChange<Net(!new)>(c: Config<Net>, cache: map<string, Net>, n: string, between: seq<string>)
    requires Truthful(c, cache) && Answer(c, cache, n).Ok?
    ensures Answer(c, RememberAll(c, cache, between), n) == Answer(c, cache, n)
  {
    var later := RememberAll(c, cache, between);
    LookupsStayTruthful(c, cache, between);
    AnswerSpec(c, cache, n);
    AnswerSpec(c, later, n);
    var k: nat :| k <= MAX_DEPTH && StopsAfter(c, cache, n, k);
    assert StopsAfter(c, later, n, k);
    EndIsUnique(c, n, Answer(c, cache, n).net, Answer(c, later, n).net);
  }

  /** A name on a cycle of aliases has a next hop however far it is followed. */
  lemma {:induction false} CycleGoesOn<Net>(c: Config<Net>, name: string, period: nat, n: nat)
    requires period > 0 && Walk(c, name, period) == Some(name)
    ensures Walk(c, name, n).Some?
    decreases n
  {
    if n < period {
      WalkAdd(c, name, n, period - n);
    } else {
      CycleGoesOn(c, name, period, n - period);
      WalkAdd(c, name, period, n - period);
    }
  }

  lemma ChainGoesOn<Net>(c: Config<Net>, n: string, lead: nat, period: nat, k: nat)
    requires Walk(c, n, lead).Some? && period > 0 && Walk(c, Walk(c, n, lead).value, period) == Walk(c, n, lead)
    ensures Walk(c, n, k).Some?
  {
    CycleGoesOn(c, Walk(c, n, lead).value, period, k);
    WalkAdd(c, n, lead, k);
    WalkAdd(c, n, k, lead);
    assert lead + k == k + lead;
  }

  /** A network has no next hop. */
  lemma GoingOnIsNoEnd<Net>(c: Config<Net>, n: string, k: nat, net: Net)
    requires Walk(c, n, k + 1).Some?
    ensures !EndsAfter(c, n, k, net)
  {
    WalkAdd(c, n, k, 1);
    assert Walk(c, n, k).Some? ==> Walk(c, Walk(c, n, k).value, 1) == Hop(c, Walk(c, n, k).value);
  }

  /** A name whose chain runs into a cycle never resolves, whatever was looked up before. */
  lemma CyclicNamesNeverResolve<Net(!new)>(
      c: Config<Net>, cache: map<string, Net>, before: seq<string>, n: string, lead: nat, period: nat)
    requires Truthful(c, cache)
    requires Walk(c, n, lead).Some? && period > 0 && Walk(c, Walk(c, n, lead).value, period) == Walk(c, n, lead)
    ensures Answer(c, RememberAll(c, cache, before), n) == Err
  {
    var later := RememberAll(c, cache, before);
    LookupsStayTruthful(c, cache, before);
    AnswerSpec(c, later, n);
    forall k: nat, net
      ensures !EndsAfter(c, n, k, net)
    {
      ChainGoesOn(c, n, lead, period, k + 1);
      GoingOnIsNoEnd(c, n, k, net);
    }
  }

  /** Six aliases in a row, the last one naming a network. */
  function Chain<Net>(net: Net): Config<Net> {
    Config(map["a" := Value("b"), "b" := Value("c"), "c" := Value("d"), "d" := Value("e"), "e" := Value("f"),
               "f" := Value("g"), "g" := Block(Some(net))], None)
  }

  lemma NoPlaceholder(s: string)
    requires |s| == 1
    ensures !Contains(s, HOSTNAME)
  {
    forall i | 0 <= i <= |s|
      ensures !(HOSTNAME <= s[i..])
    {
      assert |HOSTNAME| > 1;
    }
  }

  /** Concretely: a name six hops away is not found, and found after a nearer
      name on its chain was looked up. */
  lemma FoundOnlyLater<Net(!new)>(net: Net)
    ensures var c := Chain(net);
            && Answer(c, map[], "a") == Err
            && Answer(c, Remember(c, map[], "b"), "a") == Ok(net)
  {
    var c := Chain(net);
    assert ResolveAlias(c, map[], "g", 1) == Ok(net);
    assert ResolveAlias(c, map[], "f", 1) == Err;
    assert ResolveAlias(c, map[], "e", 2) == Err && ResolveAlias(c, map[], "f", 2) == Ok(net);
    assert ResolveAlias(c, map[], "d", 3) == Err && ResolveAlias(c, map[], "e", 3) == Ok(net);
    assert ResolveAlias(c, map[], "c", 4) == Err && ResolveAlias(c, map[], "d", 4) == Ok(net);
    assert ResolveAlias(c, map[], "b", 5) == Err && ResolveAlias(c, map[], "c", 5) == Ok(net);
    var later := Remember(c, map[], "b");
    assert later == map["b" := net];
  }

  // ---- the manager

  class ConfigManager<Net(!new)> {
    const config: Config<Net>
    const loaded: bool
    var networks: map<string, Net>

    constructor (config: Config<Net>, loaded: bool, networks: map<string, Net>)
      ensures this.config == config && this.loaded == loaded && this.networks == networks
    {
      this.config, this.loaded, this.networks := config, loaded, networks;
    }

    method GetNetworkConfig(name: string) returns (r: Result<Net>)
      modifies this
      ensures !loaded ==> r == Err && networks == old(networks)
      ensures loaded ==>
                && networks == Remember(config, old(networks), name)
                && r == match Expand(config, name) case None => Err case Some(n) => Answer(config, old(networks), n)
    {
      if !loaded {
        return Err;
      }
      var expanded := Expand(config, name);
      if expanded.None? {
        return Err;
      }
      var n := expanded.value;
      if n in networks {
        assert networks == networks[n := networks[n]];
        return Ok(networks[n]);
      }
      if n !in config.entries {
        return Err;
      }
      match config.entries[n] {
        case Value(target) =>
          if target != "" {
            r := ResolveAlias(config, networks, target, MAX_DEPTH);
            if r.Ok? {
              networks := networks[n := r.net];
            }
            return;
          }
          return Err;
        case Block(net) =>
          if net.None? {
            return Err;
          }
          networks := networks[n := net.value];
          return Ok(net.value);
      }
    }
  }
}
