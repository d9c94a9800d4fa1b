/** The sharing rules of pkg/firewall over an ordered iptables rule list. */
module Firewall {
  datatype Rule = Rule(table: string, chain: string, spec: seq<string>)

  /** natRules: the FORWARD rules are left out when the internal interface is unknown. */
  function NatRules(internal: string, out: string): (rs: seq<Rule>)
    ensures |rs| == if internal != "" then 3 else 1
    ensures Distinct(rs)
  {
    var masquerade := Rule("nat", "POSTROUTING", ["-o", out, "-j", "MASQUERADE"]);
    var forwardIn := Rule("filter", "FORWARD", ["-i", internal, "-j", "ACCEPT"]);
    var forwardBack :=
      Rule("filter", "FORWARD", ["-o", internal, "-m", "state", "--state", "RELATED,ESTABLISHED", "-j", "ACCEPT"]);
    assert masquerade.table[0] == 'n' && forwardIn.table[0] == 'f';
    assert |forwardIn.spec| != |forwardBack.spec|;
    if internal != "" then [masquerade, forwardIn, forwardBack] else [masquerade]
  }

  predicate Distinct(rs: seq<Rule>) {
    forall i, j :: 0 <= i < j < |rs| ==> rs[i] != rs[j]
  }

  function AppendUnique(rules: seq<Rule>, r: Rule): seq<Rule> {
    if r in rules then rules else rules + [r]
  }

  /** iptables deletes the first rule that matches. */
  function DeleteIfExists(rules: seq<Rule>, r: Rule): seq<Rule> {
    if rules == [] then []
    else if rules[0] == r then rules[1..]
    else [rules[0]] + DeleteIfExists(rules[1..], r)
  }

  function Enabled(rules: seq<Rule>, nat_: seq<Rule>): seq<Rule> {
    if nat_ == [] then rules
    else AppendUnique(Enabled(rules, nat_[..|nat_| - 1]), nat_[|nat_| - 1])
  }

  function Disabled(rules: seq<Rule>, nat_: seq<Rule>): seq<Rule> {
    if nat_ == [] then rules
    else DeleteIfExists(Disabled(rules, nat_[..|nat_| - 1]), nat_[|nat_| - 1])
  }

  predicate NonePresent(rules: seq<Rule>, nat_: seq<Rule>) {
    forall r :: r in nat_ ==> r !in rules
  }

  lemma {:induction false} DeleteCount(rules: seq<Rule>, r: Rule, x: Rule)
    ensures multiset(DeleteIfExists(rules, r))[x] ==
            if x == r && x in rules then multiset(rules)[x] - 1 else multiset(rules)[x]
  {
    if rules != [] {
      assert rules == [rules[0]] + rules[1..];
      if rules[0] != r {
        DeleteCount(rules[1..], r, x);
      }
    }
  }

  lemma {:induction false} DeleteAbsent(rules: seq<Rule>, r: Rule)
    requires r !in rules
    ensures DeleteIfExists(rules, r) == rules
  {
    if rules != [] {
      DeleteAbsent(rules[1..], r);
    }
  }

  lemma {:induction false} DeleteFirst(a: seq<Rule>, r: Rule, b: seq<Rule>)
    requires r !in a
    ensures DeleteIfExists(a + [r] + b, r) == a + b
  {
    if a == [] {
      assert a + [r] + b == [r] + b && a + b == b;
    } else {
      var x, rest := a[0], a[1..];
      assert a == [x] + rest && a + [r] + b == [x] + (rest + [r] + b) && a + b == [x] + (rest + b);
      assert x in a && r !in rest;
      DeleteFirst(rest, r, b);
    }
  }

  lemma {:induction false} EnabledCount(rules: seq<Rule>, nat_: seq<Rule>, x: Rule)
    requires Distinct(nat_)
    ensures multiset(Enabled(rules, nat_))[x] == if x in nat_ && x !in rules then 1 else multiset(rules)[x]
  {
    if nat_ != [] {
      EnabledCount(rules, nat_[..|nat_| - 1], x);
      EnabledCount(rules, nat_[..|nat_| - 1], nat_[|nat_| - 1]);
    }
  }

  lemma {:induction false} DisabledCount(rules: seq<Rule>, nat_: seq<Rule>, x: Rule)
    requires Distinct(nat_)
    ensures multiset(Disabled(rules, nat_))[x] ==
            if x in nat_ && x in rules then multiset(rules)[x] - 1 else multiset(rules)[x]
  {
    if nat_ != [] {
      var before := Disabled(rules, nat_[..|nat_| - 1]);
      DisabledCount(rules, nat_[..|nat_| - 1], x);
      DeleteCount(before, nat_[|nat_| - 1], x);
      assert x in before <==> multiset(before)[x] > 0;
      assert x in rules <==> multiset(rules)[x] > 0;
    }
  }

  /** The rules of nat_ that were not there yet. */
  function Fresh(rules: seq<Rule>, nat_: seq<Rule>): seq<Rule> {
    if nat_ == [] then []
    else
      var last := nat_[|nat_| - 1];
      Fresh(rules, nat_[..|nat_| - 1]) + if last in rules then [] else [last]
  }

  /** The rules of nat_ whose deletion works. */
  function Deletable(nat_: seq<Rule>, stuck: set<Rule>): seq<Rule> {
    if nat_ == [] then []
    else
      var last := nat_[|nat_| - 1];
      Deletable(nat_[..|nat_| - 1], stuck) + if last in stuck then [] else [last]
  }

  lemma {:induction false} FreshHas(rules: seq<Rule>, nat_: seq<Rule>)
    requires Distinct(nat_)
    ensures forall r :: r in Fresh(rules, nat_) <==> r in nat_ && r !in rules
    ensures Distinct(Fresh(rules, nat_))
  {
    if nat_ != [] {
      FreshHas(rules, nat_[..|nat_| - 1]);
    }
  }

  lemma {:induction false} DeletableHas(nat_: seq<Rule>, stuck: set<Rule>)
    requires Distinct(nat_)
    ensures forall r :: r in Deletable(nat_, stuck) <==> r in nat_ && r !in stuck
    ensures Distinct(Deletable(nat_, stuck))
  {
    if nat_ != [] {
      DeletableHas(nat_[..|nat_| - 1], stuck);
    }
  }

  lemma {:induction false} SameFilter(rules: seq<Rule>, nat_: seq<Rule>, stuck: set<Rule>)
    requires forall r :: r in nat_ ==> (r in rules <==> r in stuck)
    ensures Fresh(rules, nat_) == Deletable(nat_, stuck)
  {
    if nat_ != [] {
      assert nat_[|nat_| - 1] in nat_;
      SameFilter(rules, nat_[..|nat_| - 1], stuck);
    }
  }

  /** Enabling appends the missing rules in order. */
  lemma {:induction false} EnabledIs(rules: seq<Rule>, nat_: seq<Rule>)
    requires Distinct(nat_)
    ensures Enabled(rules, nat_) == rules + Fresh(rules, nat_)
  {
    if nat_ != [] {
      EnabledIs(rules, nat_[..|nat_| - 1]);
      FreshHas(rules, nat_[..|nat_| - 1]);
    }
  }

  /** Enabling changes nothing exactly when all the rules were there. */
  lemma EnabledSame(rules: seq<Rule>, nat_: seq<Rule>)
    requires Distinct(nat_)
    ensures Enabled(rules, nat_) == rules <==> forall r :: r in nat_ ==> r in rules
  {
    EnabledIs(rules, nat_);
    FreshHas(rules, nat_);
    var f := Fresh(rules, nat_);
    if f != [] {
      assert f[0] in f;
      assert |rules + f| > |rules|;
    }
  }

  lemma {:induction false} DisabledFresh(rules: seq<Rule>, nat_: seq<Rule>, tail: seq<Rule>)
    requires Distinct(nat_) && NonePresent(rules, nat_)
    ensures Disabled(rules + nat_ + tail, nat_) == rules + tail
  {
    if nat_ == [] {
      assert rules + nat_ + tail == rules + tail;
    } else {
      var init, last := nat_[..|nat_| - 1], nat_[|nat_| - 1];
      assert rules + nat_ + tail == rules + init + ([last] + tail);
      DisabledFresh(rules, init, [last] + tail);
      assert rules + ([last] + tail) == rules + [last] + tail;
      assert last in nat_;
      DeleteFirst(rules, last, tail);
    }
  }

  /** Enabling and then disabling restores the rule list, order included,
      exactly when a rule fails to be deleted if and only if it was there
      before: AppendUnique does not duplicate a rule the host already had, but
      the teardown deletes it. */
  lemma EnableThenDisable(rules: seq<Rule>, nat_: seq<Rule>, stuck: set<Rule>)
    requires Distinct(nat_)
    ensures Disabled(Enabled(rules, nat_), Deletable(nat_, stuck)) == rules
       <==> forall r :: r in nat_ ==> (r in rules <==> r in stuck)
  {
    var del := Deletable(nat_, stuck);
    DeletableHas(nat_, stuck);
    if forall r :: r in nat_ ==> (r in rules <==> r in stuck) {
      EnabledIs(rules, nat_);
      SameFilter(rules, nat_, stuck);
      DisabledFresh(rules, del, []);
      assert rules + del + [] == rules + del && rules + [] == rules;
    } else {
      var r :| r in nat_ && !(r in rules <==> r in stuck);
      EnabledCount(rules, nat_, r);
      var on := Enabled(rules, nat_);
      assert r in on <==> multiset(on)[r] > 0;
      assert r in rules <==> multiset(rules)[r] > 0;
      DisabledCount(on, del, r);
    }
  }

  lemma {:induction false} DeletesCommute(rules: seq<Rule>, a: Rule, b: Rule)
    ensures DeleteIfExists(DeleteIfExists(rules, a), b) == DeleteIfExists(DeleteIfExists(rules, b), a)
  {
    if rules != [] && rules[0] != a && rules[0] != b {
      DeletesCommute(rules[1..], a, b);
    }
  }

  lemma {:induction false} DeleteLast(rules: seq<Rule>, nat_: seq<Rule>, r: Rule)
    ensures Disabled(DeleteIfExists(rules, r), nat_) == DeleteIfExists(Disabled(rules, nat_), r)
  {
    if nat_ != [] {
      var init, last := nat_[..|nat_| - 1], nat_[|nat_| - 1];
      DeleteLast(rules, init, r);
      DeletesCommute(Disabled(rules, init), last, r);
    }
  }

  /** What an earlier round deleted makes no difference to a round that deletes
      it as well, as long as there was one copy. */
  lemma {:induction false} EarlierRound(rules: seq<Rule>, first: seq<Rule>, second: seq<Rule>)
    requires Distinct(first) && Distinct(second)
    requires forall r :: r in first ==> r in second && multiset(rules)[r] <= 1
    ensures Disabled(Disabled(rules, first), second) == Disabled(rules, second)
  {
    if first != [] {
      var init, r := first[..|first| - 1], first[|first| - 1];
      EarlierRound(rules, init, second);
      var before := Disabled(rules, init);
      DeleteLast(before, second, r);
      DisabledCount(rules, init, r);
      DisabledCount(before, second, r);
      var after := Disabled(before, second);
      assert r in before <==> multiset(before)[r] > 0;
      assert r in after <==> multiset(after)[r] > 0;
      DeleteAbsent(after, r);
    }
  }

  /** An earlier round of deletions shows in the end exactly when it deleted a
      rule that the later round does not, or that was there more than once. */
  lemma DisableTwice(rules: seq<Rule>, nat_: seq<Rule>, stuck: set<Rule>, stuck2: set<Rule>)
    requires Distinct(nat_)
    ensures var on := Enabled(rules, nat_);
            var first, second := Deletable(nat_, stuck), Deletable(nat_, stuck2);
            (Disabled(Disabled(on, first), second) == Disabled(on, second) <==>
               forall r :: r in nat_ ==> r in stuck || (r !in stuck2 && multiset(rules)[r] <= 1))
  {
    var on := Enabled(rules, nat_);
    var first, second := Deletable(nat_, stuck), Deletable(nat_, stuck2);
    DeletableHas(nat_, stuck);
    DeletableHas(nat_, stuck2);
    if forall r :: r in nat_ ==> r in stuck || (r !in stuck2 && multiset(rules)[r] <= 1) {
      forall r | r in first
        ensures r in second && multiset(on)[r] <= 1
      {
        EnabledCount(rules, nat_, r);
      }
      EarlierRound(on, first, second);
    } else {
      var r :| r in nat_ && r !in stuck && (r in stuck2 || multiset(rules)[r] > 1);
      RoundsCount(rules, nat_, first, second, r);
    }
  }

  lemma RoundsCount(rules: seq<Rule>, nat_: seq<Rule>, first: seq<Rule>, second: seq<Rule>, r: Rule)
    requires Distinct(nat_) && Distinct(first) && Distinct(second)
    requires r in nat_ && r in first && (r !in second || multiset(rules)[r] > 1)
    ensures var on := Enabled(rules, nat_);
            multiset(Disabled(Disabled(on, first), second))[r] < multiset(Disabled(on, second))[r]
  {
    var on := Enabled(rules, nat_);
    var once := Disabled(on, first);
    EnabledCount(rules, nat_, r);
    DisabledCount(on, first, r);
    DisabledCount(on, second, r);
    DisabledCount(once, second, r);
    assert r in rules <==> multiset(rules)[r] > 0;
    assert r in on <==> multiset(on)[r] > 0;
    assert r in once <==> multiset(once)[r] > 0;
  }

  // ---- what the rules do to packets

  /** A forwarded packet: where it comes in, where it goes out, and whether it
      belongs to a connection that is already known. */
  datatype Packet = Packet(inIface: string, outIface: string, established: bool)

  /** The arguments of a rule, one option after the other. */
  predicate Selects(spec: seq<string>, p: Packet)
    decreases |spec|
  {
    if |spec| < 2 then spec == []
    else
      && (spec[0] == "-i" ==> p.inIface == spec[1])
      && (spec[0] == "-o" ==> p.outIface == spec[1])
      && (spec[0] == "--state" ==> spec[1] == "RELATED,ESTABLISHED" && p.established)
      && Selects(spec[2..], p)
  }

  function Target(spec: seq<string>): string
    decreases |spec|
  {
    if |spec| < 2 then "" else if spec[0] == "-j" then spec[1] else Target(spec[2..])
  }

  /** The packet leaves with the host's own address. */
  predicate Translates(r: Rule, p: Packet) {
    r.table == "nat" && r.chain == "POSTROUTING" && Target(r.spec) == "MASQUERADE" && Selects(r.spec, p)
  }

  /** The packet is let through. */
  predicate Accepts(r: Rule, p: Packet) {
    r.table == "filter" && r.chain == "FORWARD" && Target(r.spec) == "ACCEPT" && Selects(r.spec, p)
  }

  predicate Translated(rules: seq<Rule>, p: Packet) {
    exists r :: r in rules && Translates(r, p)
  }

  predicate Accepted(rules: seq<Rule>, p: Packet) {
    exists r :: r in rules && Accepts(r, p)
  }

  lemma SelectsOne(option: string, value: string, rest: seq<string>, p: Packet)
    ensures Selects([option, value] + rest, p) <==>
            && (option == "-i" ==> p.inIface == value)
            && (option == "-o" ==> p.outIface == value)
            && (option == "--state" ==> value == "RELATED,ESTABLISHED" && p.established)
            && Selects(rest, p)
    ensures Target([option, value] + rest) == if option == "-j" then value else Target(rest)
  {
    assert ([option, value] + rest)[2..] == rest;
  }

  lemma Masquerade(out: string, p: Packet)
    ensures var spec := ["-o", out, "-j", "MASQUERADE"];
            Target(spec) == "MASQUERADE" && (Selects(spec, p) <==> p.outIface == out)
  {
    var spec := ["-o", out, "-j", "MASQUERADE"];
    assert spec == ["-o", out] + (["-j", "MASQUERADE"] + []);
    SelectsOne("-o", out, ["-j", "MASQUERADE"] + [], p);
    SelectsOne("-j", "MASQUERADE", [], p);
  }

  lemma ForwardIn(internal: string, p: Packet)
    ensures var spec := ["-i", internal, "-j", "ACCEPT"];
            Target(spec) == "ACCEPT" && (Selects(spec, p) <==> p.inIface == internal)
  {
    var spec := ["-i", internal, "-j", "ACCEPT"];
    assert spec == ["-i", internal] + (["-j", "ACCEPT"] + []);
    SelectsOne("-i", internal, ["-j", "ACCEPT"] + [], p);
    SelectsOne("-j", "ACCEPT", [], p);
  }

  lemma ForwardBack(internal: string, p: Packet)
    ensures var spec := ["-o", internal, "-m", "state", "--state", "RELATED,ESTABLISHED", "-j", "ACCEPT"];
            Target(spec) == "ACCEPT" && (Selects(spec, p) <==> p.outIface == internal && p.established)
  {
    var last := ["-j", "ACCEPT"] + [];
    var state := ["--state", "RELATED,ESTABLISHED"] + last;
    var module_ := ["-m", "state"] + state;
    assert ["-o", internal, "-m", "state", "--state", "RELATED,ESTABLISHED", "-j", "ACCEPT"]
        == ["-o", internal] + module_;
    SelectsOne("-o", internal, module_, p);
    SelectsOne("-m", "state", state, p);
    SelectsOne("--state", "RELATED,ESTABLISHED", last, p);
    SelectsOne("-j", "ACCEPT", [], p);
  }

  /** The sharing rules translate exactly what leaves by the uplink, and let
      through exactly what comes from the internal interface, and what is
      established and goes back to it. */
  lemma NatRulesShare(internal: string, out: string, p: Packet)
    ensures Translated(NatRules(internal, out), p) <==> p.outIface == out
    ensures Accepted(NatRules(internal, out), p) <==>
            internal != "" && (p.inIface == internal || (p.outIface == internal && p.established))
  {
    Masquerade(out, p);
    ForwardIn(internal, p);
    ForwardBack(internal, p);
    var rs := NatRules(internal, out);
    assert "nat"[0] != "filter"[0];
    assert Translates(rs[0], p) <==> p.outIface == out;
    assert !Accepts(rs[0], p);
    if internal != "" {
      assert !Translates(rs[1], p) && !Translates(rs[2], p);
      assert Accepts(rs[1], p) <==> p.inIface == internal;
      assert Accepts(rs[2], p) <==> p.outIface == internal && p.established;
    }
  }

  lemma {:induction false} EnabledHas(rules: seq<Rule>, nat_: seq<Rule>)
    ensures forall r :: r in Enabled(rules, nat_) <==> r in rules || r in nat_
  {
    if nat_ != [] {
      assert nat_ == nat_[..|nat_| - 1] + [nat_[|nat_| - 1]];
      EnabledHas(rules, nat_[..|nat_| - 1]);
    }
  }

  /** Enabling adds exactly that to what the host's own rules do. */
  lemma EnabledShares(rules: seq<Rule>, internal: string, out: string, p: Packet)
    ensures var on := Enabled(rules, NatRules(internal, out));
            && (Translated(on, p) <==> Translated(rules, p) || p.outIface == out)
            && (Accepted(on, p) <==>
                  Accepted(rules, p)
                  || (internal != "" && (p.inIface == internal || (p.outIface == internal && p.established))))
  {
    var nat_ := NatRules(internal, out);
    EnabledHas(rules, nat_);
    NatRulesShare(internal, out, p);
  }

  /** The live rule list. */
  class Manager {
    var rules: seq<Rule>

    constructor (rules: seq<Rule>)
      ensures this.rules == rules
    {
      this.rules := rules;
    }

    /** installs says how many rules can be added before one fails. */
    method EnableNAT(internal: string, out: string, installs: nat) returns (ok: bool)
      modifies this
      ensures ok == (installs >= |NatRules(internal, out)|)
      ensures rules == Enabled(old(rules), Prefix(NatRules(internal, out), installs))
    {
      var todo := NatRules(internal, out);
      for i := 0 to |todo|
        invariant i <= installs && rules == Enabled(old(rules), todo[..i])
      {
        if i == installs {
          return false;
        }
        assert todo[..i + 1][..i] == todo[..i];
        if todo[i] !in rules {
          rules := rules + [todo[i]];
        }
      }
      assert todo[..|todo|] == todo;
      return true;
    }

    /** stuck are the rules that cannot be deleted; the loop goes on after them. */
    method DisableNAT(internal: string, out: string, stuck: set<Rule>) returns (ok: bool)
      modifies this
      ensures ok == AllLoose(NatRules(internal, out), stuck)
      ensures rules == Disabled(old(rules), Deletable(NatRules(internal, out), stuck))
    {
      ok := DeleteAll(NatRules(internal, out), stuck);
    }

    method DeleteAll(todo: seq<Rule>, stuck: set<Rule>) returns (ok: bool)
      modifies this
      ensures ok == AllLoose(todo, stuck)
      ensures rules == Disabled(old(rules), Deletable(todo, stuck))
    {
      ok := true;
      for i := 0 to |todo|
        invariant rules == Disabled(old(rules), Deletable(todo[..i], stuck))
        invariant ok == AllLoose(todo[..i], stuck)
      {
        ghost var done := Deletable(todo[..i], stuck);
        DeletableStep(todo, i, stuck);
        if todo[i] in stuck {
          ok := false;
        } else {
          rules := DeleteIfExists(rules, todo[i]);
        }
      }
      assert todo[..|todo|] == todo;
    }
  }

  predicate AllLoose(todo: seq<Rule>, stuck: set<Rule>) {
    forall r :: r in todo ==> r !in stuck
  }

  lemma DeletableStep(todo: seq<Rule>, i: nat, stuck: set<Rule>)
    requires i < |todo|
    ensures AllLoose(todo[..i + 1], stuck) == (AllLoose(todo[..i], stuck) && todo[i] !in stuck)
    ensures Deletable(todo[..i + 1], stuck)
         == if todo[i] in stuck then Deletable(todo[..i], stuck) else Deletable(todo[..i], stuck) + [todo[i]]
  {
    assert todo[..i + 1] == todo[..i] + [todo[i]];
    assert todo[..i + 1][..i] == todo[..i];
  }

  function Prefix(nat_: seq<Rule>, n: nat): seq<Rule> {
    if n < |nat_| then nat_[..n] else nat_
  }
}
