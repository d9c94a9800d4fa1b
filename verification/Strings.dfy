/** Text primitives of the Go standard library that net relies on: strings are
    sequences of characters, TrimSpace and Split behave as package strings does. */
module Strings {

  datatype Option<+T> = None | Some(value: T)

  /** unicode.IsSpace */
  predicate IsSpace(c: char) {
    || c == ' ' || '\t' <= c <= '\r' || c == '\U{85}' || c == '\U{a0}' || c == '\U{1680}'
    || '\U{2000}' <= c <= '\U{200a}'
    || c == '\U{2028}' || c == '\U{2029}' || c == '\U{202f}' || c == '\U{205f}' || c == '\U{3000}'
  }

  function TrimLeft(s: string): (r: string)
    ensures r != [] ==> !IsSpace(r[0])
  {
    if s != [] && IsSpace(s[0]) then TrimLeft(s[1..]) else s
  }

  function TrimRight(s: string): (r: string)
    ensures r != [] ==> !IsSpace(r[|r| - 1])
  {
    if s != [] && IsSpace(s[|s| - 1]) then TrimRight(s[..|s| - 1]) else s
  }

  function TrimSpace(s: string): string {
    TrimRight(TrimLeft(s))
  }

  /** No white space at either end. */
  predicate Trimmed(s: string) {
    s != [] ==> !IsSpace(s[0]) && !IsSpace(s[|s| - 1])
  }

  predicate HasSpace(s: string) {
    exists i :: 0 <= i < |s| && IsSpace(s[i])
  }

  lemma {:induction false} TrimLeftShape(s: string)
    ensures exists k :: 0 <= k <= |s| && TrimLeft(s) == s[k..]
  {
    if s != [] && IsSpace(s[0]) {
      TrimLeftShape(s[1..]);
      var k :| 0 <= k <= |s[1..]| && TrimLeft(s[1..]) == s[1..][k..];
      assert TrimLeft(s) == s[k + 1..];
    } else {
      assert s == s[0..];
    }
  }

  lemma {:induction false} TrimRightShape(s: string)
    ensures exists k :: 0 <= k <= |s| && TrimRight(s) == s[..k]
  {
    if s != [] && IsSpace(s[|s| - 1]) {
      var t := s[..|s| - 1];
      TrimRightShape(t);
      var k :| 0 <= k <= |t| && TrimRight(t) == t[..k];
      assert TrimRight(s) == s[..k];
    } else {
      assert s == s[..|s|];
    }
  }

  /** Trimming introduces no character. */
  lemma TrimKeepsOut(s: string, c: char)
    requires c !in s
    ensures c !in TrimLeft(s) && c !in TrimRight(s)
  {
    TrimLeftShape(s);
    TrimRightShape(s);
  }

  lemma TrimSpaceIsTrimmed(s: string)
    ensures Trimmed(TrimSpace(s))
  {
    TrimRightShape(TrimLeft(s));
  }

  lemma TrimmedIsFixed(s: string)
    requires Trimmed(s)
    ensures TrimSpace(s) == s
  {
  }

  /** Trimming cannot eat past a separator that is not white space. */
  lemma {:induction false} TrimLeftStops(a: string, sep: char, b: string)
    requires !IsSpace(sep)
    ensures TrimLeft(a + [sep] + b) == TrimLeft(a) + [sep] + b
  {
    var s := a + [sep] + b;
    if a == [] {
      assert s[0] == sep;
      assert TrimLeft(s) == s;
    } else if IsSpace(a[0]) {
      assert s[1..] == a[1..] + [sep] + b;
      TrimLeftStops(a[1..], sep, b);
    } else {
      assert s[0] == a[0];
    }
  }

  lemma {:induction false} TrimRightStops(a: string, sep: char, b: string)
    requires !IsSpace(sep)
    ensures TrimRight(a + [sep] + b) == a + [sep] + TrimRight(b)
  {
    var s := a + [sep] + b;
    if b == [] {
      assert s[|s| - 1] == sep;
    } else if IsSpace(b[|b| - 1]) {
      assert s[..|s| - 1] == a + [sep] + b[..|b| - 1];
      TrimRightStops(a, sep, b[..|b| - 1]);
    } else {
      assert s[|s| - 1] == b[|b| - 1];
    }
  }

  /** strings.Split with a one-character separator. */
  function Split(s: string, sep: char): (parts: seq<string>)
    ensures |parts| >= 1
  {
    if s == [] then [[]]
    else
      var rest := Split(s[1..], sep);
      if s[0] == sep then [[]] + rest
      else [[s[0]] + rest[0]] + rest[1..]
  }

  /** strings.Join with a one-character separator. */
  function Join(parts: seq<string>, sep: char): string {
    if parts == [] then []
    else if |parts| == 1 then parts[0]
    else parts[0] + [sep] + Join(parts[1..], sep)
  }

  lemma JoinTwo(a: string, b: string, sep: char)
    ensures Join([a, b], sep) == a + [sep] + b
  {
    assert [a, b][1..] == [b];
  }

  lemma {:induction false} JoinMore(init: seq<string>, a: string, b: string, sep: char)
    ensures Join(init + [a, b], sep) == Join(init + [a], sep) + [sep] + b
  {
    var less, more := init + [a], init + [a, b];
    if init == [] {
      assert less == [a] && more == [a, b];
      JoinTwo(a, b, sep);
    } else {
      assert less[1..] == init[1..] + [a] && more[1..] == init[1..] + [a, b];
      JoinMore(init[1..], a, b, sep);
    }
  }

  lemma {:induction false} SplitWhole(s: string, sep: char)
    requires sep !in s
    ensures Split(s, sep) == [s]
  {
    if s != [] {
      SplitWhole(s[1..], sep);
      assert s == [s[0]] + s[1..];
    }
  }

  lemma {:induction false} SplitPartsFree(s: string, sep: char)
    ensures forall p :: p in Split(s, sep) ==> sep !in p
  {
    if s != [] {
      SplitPartsFree(s[1..], sep);
      var rest := Split(s[1..], sep);
      assert rest[0] in rest;
    }
  }

  /** Splitting at a separator splits the two sides. */
  lemma {:induction false} SplitAppend(a: string, sep: char, b: string)
    ensures Split(a + [sep] + b, sep) == Split(a, sep) + Split(b, sep)
  {
    var s := a + [sep] + b;
    if a == [] {
      assert s[1..] == b;
    } else {
      assert s[1..] == a[1..] + [sep] + b;
      SplitAppend(a[1..], sep, b);
    }
  }

  lemma {:induction false} SplitJoin(parts: seq<string>, sep: char)
    requires parts != []
    requires forall p :: p in parts ==> sep !in p
    ensures Split(Join(parts, sep), sep) == parts
  {
    SplitWhole(parts[0], sep);
    if |parts| > 1 {
      SplitJoin(parts[1..], sep);
      SplitAppend(parts[0], sep, Join(parts[1..], sep));
    }
  }

  /** A joined record splits back into its separator-free leading fields and
      whatever its last field splits into. */
  lemma {:induction false} SplitRecord(fields: seq<string>, last: string, sep: char)
    requires forall f :: f in fields ==> sep !in f
    ensures Split(Join(fields + [last], sep), sep) == fields + Split(last, sep)
  {
    if fields != [] {
      var rest := fields[1..] + [last];
      assert (fields + [last])[1..] == rest;
      SplitRecord(fields[1..], last, sep);
      SplitAppend(fields[0], sep, Join(rest, sep));
      SplitWhole(fields[0], sep);
      assert fields == [fields[0]] + fields[1..];
      calc {
        Split(Join(fields + [last], sep), sep);
        Split(fields[0] + [sep] + Join(rest, sep), sep);
        [fields[0]] + (fields[1..] + Split(last, sep));
        fields + Split(last, sep);
      }
    } else {
      assert fields + [last] == [last];
    }
  }

  /** Trimming a joined record only reaches its first and its last field. */
  lemma {:induction false} TrimRightRecord(fields: seq<string>, last: string, sep: char)
    requires fields != [] && !IsSpace(sep)
    ensures TrimRight(Join(fields + [last], sep)) == Join(fields + [TrimRight(last)], sep)
  {
    var rest := fields[1..];
    assert (fields + [last])[1..] == rest + [last];
    assert (fields + [TrimRight(last)])[1..] == rest + [TrimRight(last)];
    TrimRightStops(fields[0], sep, Join(rest + [last], sep));
    if rest != [] {
      TrimRightRecord(rest, last, sep);
    } else {
      assert rest + [last] == [last] && rest + [TrimRight(last)] == [TrimRight(last)];
    }
  }

  lemma TrimRecord(first: string, mid: seq<string>, last: string, sep: char)
    requires !IsSpace(sep)
    ensures TrimSpace(Join([first] + mid + [last], sep)) == Join([TrimLeft(first)] + mid + [TrimRight(last)], sep)
  {
    var r := [first] + mid + [last];
    var t := [TrimLeft(first)] + mid;
    assert r[1..] == mid + [last] == (t + [last])[1..];
    TrimLeftStops(first, sep, Join(mid + [last], sep));
    assert TrimLeft(Join(r, sep)) == Join(t + [last], sep);
    TrimRightRecord(t, last, sep);
  }

  /** strings.HasPrefix and strings.HasSuffix. */
  predicate HasPrefix(s: string, prefix: string) {
    prefix <= s
  }

  predicate HasSuffix(s: string, suffix: string) {
    |suffix| <= |s| && s[|s| - |suffix|..] == suffix
  }

  /** strings.Contains */
  predicate Contains(s: string, sub: string) {
    exists i :: 0 <= i <= |s| && sub <= s[i..]
  }

  ghost predicate Inside(sub: string, s: string) {
    exists a, b :: s == a + sub + b
  }

  lemma ContainsIff(s: string, sub: string)
    ensures Contains(s, sub) <==> Inside(sub, s)
  {
    if i :| 0 <= i <= |s| && sub <= s[i..] {
      assert s == s[..i] + sub + s[i + |sub|..];
    }
    if a, b :| s == a + sub + b {
      assert s[|a|..] == sub + b;
    }
  }

  /** The index of the first c in s, or |s| when there is none. */
  function IndexOf(s: string, c: char): (i: nat)
    ensures i <= |s|
    ensures c !in s[..i]
    ensures i < |s| ==> s[i] == c
  {
    if s == [] || s[0] == c then 0
    else
      var i := IndexOf(s[1..], c) + 1;
      assert s[..i] == [s[0]] + s[1..][..i - 1];
      i
  }

  /** strings.ToLower on the ASCII letters, the only ones in net's keywords. */
  function LowerChar(c: char): char {
    if 'A' <= c <= 'Z' then (c as int + 32) as char else c
  }

  function ToLower(s: string): (r: string)
    ensures |r| == |s|
  {
    if s == [] then [] else [LowerChar(s[0])] + ToLower(s[1..])
  }

  /** s, or a default for the empty string. */
  function OrElse(s: string, default: string): string {
    if s == "" then default else s
  }

  /** strings.ReplaceAll with one-character needle. */
  function ReplaceChar(s: string, c: char, repl: string): string {
    if s == [] then []
    else (if s[0] == c then repl else [s[0]]) + ReplaceChar(s[1..], c, repl)
  }

  function Digits(s: string, acc: nat): Option<nat> {
    if s == "" then Some(acc)
    else if '0' <= s[0] <= '9' then Digits(s[1..], 10 * acc + (s[0] as int - '0' as int))
    else None
  }

  const MAX_INT64 := 0x7fff_ffff_ffff_ffff

  /** strconv.Atoi on a 64-bit int. */
  function Atoi(s: string): Option<int> {
    if s == "" then None
    else
      var signed := s[0] == '-' || s[0] == '+';
      var digits := if signed then s[1..] else s;
      if digits == "" then None
      else match Digits(digits, 0)
        case None => None
        case Some(n) =>
          var m: int := n;
          var v := if s[0] == '-' then -m else m;
          if -MAX_INT64 - 1 <= v <= MAX_INT64 then Some(v) else None
  }

  predicate AllDigits(s: string) {
    forall i :: 0 <= i < |s| ==> '0' <= s[i] <= '9'
  }

  /** The value of a decimal numeral, by its last digit. */
  function Numeral(s: string): nat
    requires AllDigits(s)
  {
    if s == [] then 0 else 10 * Numeral(s[..|s| - 1]) + (s[|s| - 1] as int - '0' as int)
  }

  lemma {:induction false} DigitsSnoc(s: string, c: char, acc: nat)
    ensures Digits(s + [c], acc) == match Digits(s, acc)
                                    case None => None
                                    case Some(v) =>
                                      if '0' <= c <= '9' then Some(10 * v + (c as int - '0' as int)) else None
  {
    if s == [] {
      assert s + [c] == [c] && [c][1..] == [];
    } else {
      assert (s + [c])[0] == s[0] && (s + [c])[1..] == s[1..] + [c];
      if '0' <= s[0] <= '9' {
        DigitsSnoc(s[1..], c, 10 * acc + (s[0] as int - '0' as int));
      }
    }
  }

  /** Reading digits from the left gives the numeral's value. */
  lemma {:induction false} DigitsMean(s: string)
    ensures Digits(s, 0) == if AllDigits(s) then Some(Numeral(s)) else None
  {
    if s != [] {
      var init, c := s[..|s| - 1], s[|s| - 1];
      assert s == init + [c];
      DigitsMean(init);
      DigitsSnoc(init, c, 0);
      assert AllDigits(s) <==> AllDigits(init) && '0' <= c <= '9';
    }
  }

  function Unsigned(s: string): string {
    if s != "" && (s[0] == '-' || s[0] == '+') then s[1..] else s
  }

  /** Atoi accepts an optional sign and at least one digit, with a value that fits 64 bits. */
  lemma AtoiMeans(s: string)
    ensures var digits := Unsigned(s);
            if digits != "" && AllDigits(digits) then
              var n: int := Numeral(digits);
              var v := if s[0] == '-' then -n else n;
              Atoi(s) == if -0x8000_0000_0000_0000 <= v <= 0x7fff_ffff_ffff_ffff then Some(v) else None
            else Atoi(s) == None
  {
    DigitsMean(Unsigned(s));
  }

  /** strings.SplitN with a one-character separator. */
  function SplitN(s: string, sep: char, n: nat): (parts: seq<string>)
    requires n > 0
    ensures 1 <= |parts| <= n
    decreases n
  {
    var i := IndexOf(s, sep);
    if n == 1 || i == |s| then [s] else [s[..i]] + SplitN(s[i + 1..], sep, n - 1)
  }

  lemma SplitNStep(a: string, sep: char, b: string, n: nat)
    requires sep !in a && n > 1
    ensures SplitN(a + [sep] + b, sep, n) == [a] + SplitN(b, sep, n - 1)
  {
    var s := a + [sep] + b;
    IndexOfFirst(a, sep, b);
    assert s[..|a|] == a && s[|a| + 1..] == b;
  }

  /** A joined record of n fields splits back into its fields, the last one whole. */
  lemma {:induction false} SplitNRecord(fields: seq<string>, last: string, sep: char)
    requires forall f :: f in fields ==> sep !in f
    ensures SplitN(Join(fields + [last], sep), sep, |fields| + 1) == fields + [last]
    decreases |fields|
  {
    if fields == [] {
      assert fields + [last] == [last];
    } else {
      var rest := fields[1..] + [last];
      var all := fields + [last];
      assert all[1..] == rest && all == [fields[0]] + rest;
      SplitNStep(fields[0], sep, Join(rest, sep), |fields| + 1);
      SplitNRecord(fields[1..], last, sep);
      assert Join(all, sep) == fields[0] + [sep] + Join(rest, sep);
    }
  }

  lemma {:induction false} IndexOfFirst(a: string, sep: char, b: string)
    requires sep !in a
    ensures IndexOf(a + [sep] + b, sep) == |a|
  {
    var s := a + [sep] + b;
    if a != [] {
      assert s[0] == a[0] && a[0] in a;
      assert s[1..] == a[1..] + [sep] + b;
      IndexOfFirst(a[1..], sep, b);
    }
  }

  /** The byte-wise order of Go's < on strings. */
  predicate Less(a: string, b: string) {
    if b == [] then false
    else if a == [] then true
    else a[0] < b[0] || (a[0] == b[0] && Less(a[1..], b[1..]))
  }

  /** It is decided by the first place where the texts differ, or by their lengths. */
  lemma {:induction false} LessAt(a: string, b: string) returns (k: nat)
    ensures k <= |a| && k <= |b| && a[..k] == b[..k]
    ensures k < |a| && k < |b| ==> a[k] != b[k]
    ensures Less(a, b) <==> k < |b| && (k == |a| || a[k] < b[k])
  {
    if a == [] || b == [] || a[0] != b[0] {
      k := 0;
    } else {
      var rest := LessAt(a[1..], b[1..]);
      k := rest + 1;
      assert a[..k] == [a[0]] + a[1..][..rest] && b[..k] == [b[0]] + b[1..][..rest];
    }
  }

  lemma {:induction false} LessTotal(a: string, b: string)
    ensures a == b || Less(a, b) || Less(b, a)
    ensures !(Less(a, b) && Less(b, a))
    ensures !Less(a, a)
  {
    if a != [] && b != [] {
      LessTotal(a[1..], b[1..]);
      assert a == [a[0]] + a[1..] && b == [b[0]] + b[1..];
    }
    if a != [] {
      LessIrreflexive(a);
    }
  }

  lemma {:induction false} LessIrreflexive(a: string)
    ensures !Less(a, a)
  {
    if a != [] {
      LessIrreflexive(a[1..]);
    }
  }

  lemma {:induction false} LessTransitive(a: string, b: string, c: string)
    requires Less(a, b) && Less(b, c)
    ensures Less(a, c)
  {
    if a != [] && a[0] == b[0] == c[0] {
      LessTransitive(a[1..], b[1..], c[1..]);
    }
  }
}
