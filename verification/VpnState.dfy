/** The active-vpn state file of pkg/vpn: one line of "|"-separated fields. */
module VpnState {
  import opened Strings

  datatype State = State(
    name: string,
    iface: string,
    typ: string,
    origGw: string,
    origIface: string,
    endpoint: string,
    origDns: string)

  function Fields(s: State): (fs: seq<string>)
    ensures |fs| == 7
  {
    [s.name] + Inner(s) + [s.origDns]
  }

  function Inner(s: State): (fs: seq<string>)
    ensures |fs| == 5
  {
    [s.iface, s.typ, s.origGw, s.origIface, s.endpoint]
  }

  /** What setActiveVPNState writes. */
  function Encode(s: State): string {
    Join(Fields(s), '|')
  }

  function Field(parts: seq<string>, i: nat): string {
    if i < |parts| then parts[i] else ""
  }

  function FromParts(p: seq<string>): State {
    State(Field(p, 0), Field(p, 1), Field(p, 2), Field(p, 3), Field(p, 4), Field(p, 5), Field(p, 6))
  }

  /** The file is one line of seven fields, in this order. */
  lemma RecordText(s: State)
    ensures Encode(s) == s.name + "|" + s.iface + "|" + s.typ + "|" + s.origGw + "|" + s.origIface + "|" + s.endpoint
                         + "|" + s.origDns
  {
    JoinTwo(s.name, s.iface, '|');
    JoinMore([s.name], s.iface, s.typ, '|');
    JoinMore([s.name, s.iface], s.typ, s.origGw, '|');
    JoinMore([s.name, s.iface, s.typ], s.origGw, s.origIface, '|');
    JoinMore([s.name, s.iface, s.typ, s.origGw], s.origIface, s.endpoint, '|');
    JoinMore([s.name, s.iface, s.typ, s.origGw, s.origIface], s.endpoint, s.origDns, '|');
    assert [s.name] + [s.iface] == [s.name, s.iface];
    assert [s.name] + [s.iface, s.typ] == [s.name, s.iface] + [s.typ];
    assert [s.name, s.iface] + [s.typ, s.origGw] == [s.name, s.iface, s.typ] + [s.origGw];
    assert [s.name, s.iface, s.typ] + [s.origGw, s.origIface] == [s.name, s.iface, s.typ, s.origGw] + [s.origIface];
    assert [s.name, s.iface, s.typ, s.origGw] + [s.origIface, s.endpoint]
        == [s.name, s.iface, s.typ, s.origGw, s.origIface] + [s.endpoint];
    assert [s.name, s.iface, s.typ, s.origGw, s.origIface] + [s.endpoint, s.origDns] == Fields(s);
  }

  /** What getActiveVPNState makes of the file's content. */
  function Decode(content: string): Option<State> {
    var c := TrimSpace(content);
    if c == "" then None else Some(FromParts(Split(c, '|')))
  }

  /** What is left of the last field when it is read: up to its first separator. */
  function LastField(s: string): string {
    Split(TrimRight(s), '|')[0]
  }

  predicate PipeFree(fields: seq<string>) {
    forall f :: f in fields ==> '|' !in f
  }

  /** Whatever the DNS field holds, a record whose other fields are "|"-free is
      read back with those fields as they were written, the name up to leading
      white space and the DNS field up to its first separator. */
  lemma DecodeKeepsFields(s: State)
    requires '|' !in s.name && PipeFree(Inner(s))
    ensures Decode(Encode(s)).Some?
    ensures var d := Decode(Encode(s)).value;
            d.name == TrimLeft(s.name) && Inner(d) == Inner(s)
    ensures Decode(Encode(s)).value.origDns == LastField(s.origDns)
  {
    TrimRecord(s.name, Inner(s), s.origDns, '|');
    TrimKeepsOut(s.name, '|');
    var front := [TrimLeft(s.name)] + Inner(s);
    var last := TrimRight(s.origDns);
    SplitRecord(front, last, '|');
    var parts := front + Split(last, '|');
    assert Decode(Encode(s)) == Some(FromParts(parts));
    assert parts[0] == front[0];
    assert forall i :: 0 <= i < 5 ==> parts[i + 1] == Inner(s)[i];
    assert parts[6] == Split(last, '|')[0];
  }

  lemma WholeLastField(s: string)
    requires '|' !in s
    ensures LastField(s) == TrimRight(s)
  {
    TrimKeepsOut(s, '|');
    SplitWhole(TrimRight(s), '|');
  }

  lemma SurvivesImpliesPipeFree(s: State)
    requires Decode(Encode(s)) == Some(s)
    ensures PipeFree(Fields(s))
  {
    var parts := Split(TrimSpace(Encode(s)), '|');
    SplitPartsFree(TrimSpace(Encode(s)), '|');
    forall i | 0 <= i < 7
      ensures '|' !in Fields(s)[i]
    {
      assert i < |parts| ==> parts[i] in parts;
    }
  }

  /** Write then read is the identity exactly when no field holds a "|" and
      nothing is lost to the outer trim. */
  lemma RoundTrip(s: State)
    ensures Decode(Encode(s)) == Some(s)
       <==> PipeFree(Fields(s)) && TrimLeft(s.name) == s.name && TrimRight(s.origDns) == s.origDns
  {
    if Decode(Encode(s)) == Some(s) {
      SurvivesImpliesPipeFree(s);
    }
    if PipeFree(Fields(s)) {
      assert PipeFree(Inner(s)) by {
        assert forall i :: 0 <= i < 5 ==> Inner(s)[i] == Fields(s)[i + 1];
      }
      DecodeKeepsFields(s);
      WholeLastField(s.origDns);
    }
  }

  /** A record of any length loads as its prefix, with the missing fields empty:
      files of older versions, which had fewer fields, are still readable. */
  lemma ShorterRecordLoads(fields: seq<string>) returns (d: State)
    requires fields != [] && PipeFree(fields)
    requires Trimmed(Join(fields, '|')) && Join(fields, '|') != ""
    ensures Decode(Join(fields, '|')) == Some(d)
    ensures forall i :: 0 <= i < 7 ==> Fields(d)[i] == if i < |fields| then fields[i] else ""
    ensures d.name == fields[0] && (|fields| > 1 ==> d.iface == fields[1]) && (|fields| > 2 ==> d.typ == fields[2])
    ensures |fields| > 4 ==> d.origGw == fields[3] && d.origIface == fields[4]
    ensures |fields| > 6 ==> d.endpoint == fields[5] && d.origDns == fields[6]
  {
    SplitJoin(fields, '|');
    d := FromParts(fields);
    assert forall i :: 0 <= i < 7 ==> Fields(d)[i] == Field(fields, i);
  }
}
