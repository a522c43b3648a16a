/** The nftables batch: the text is built from the row list, and reading it back the way nft does
    shows what it makes of any earlier set. */
module Nft {
  import opened Peers
  import opened Text

  const FLUSH := "flush set inet nixos-fw autopeer-ports\n"
  const ADD := "add element inet nixos-fw autopeer-ports { "
  const CLOSE := " }\n"

  // ---- sorting ----

  predicate Increasing(s: seq<nat>) {
    forall i, j :: 0 <= i < j < |s| ==> s[i] < s[j]
  }

  predicate Sorted(s: seq<nat>) {
    forall i, j :: 0 <= i < j < |s| ==> s[i] <= s[j]
  }

  /** `sort_unstable`, of which only the order and the elements are used. */
  function Sort(s: seq<nat>): (r: seq<nat>)
    ensures Sorted(r) && multiset(r) == multiset(s)
    ensures forall x :: x in r <==> x in s
  {
    if s == [] then []
    else
      assert s == [s[0]] + s[1..];
      Inserted(s[0], Sort(s[1..]))
  }

  function Inserted(x: nat, s: seq<nat>): (r: seq<nat>)
    requires Sorted(s)
    ensures Sorted(r) && multiset(r) == multiset(s) + multiset{x}
    ensures forall y :: y in r <==> y == x || y in s
  {
    if s == [] || x <= s[0] then [x] + s
    else
      var r := Inserted(x, s[1..]);
      assert forall i :: 0 <= i < |r| ==> r[i] in r;
      assert s == [s[0]] + s[1..];
      [s[0]] + r
  }

  /** `dedup`: drops an element equal to the one before it. */
  function Dedup(s: seq<nat>): (r: seq<nat>)
    ensures forall x :: x in r <==> x in s
    ensures Sorted(s) ==> Increasing(r)
  {
    if |s| < 2 then s
    else
      var r := Dedup(s[1..]);
      assert forall i :: 0 <= i < |r| ==> r[i] in r;
      if s[0] == s[1] then r else [s[0]] + r
  }

  /** The row list in the order the query returned it. */
  function PortsOf(peers: seq<Peer>): (ports: seq<nat>)
    ensures forall x :: x in ports <==> exists p :: p in peers && Wanted(p) && p.port == x
  {
    if peers == [] then []
    else
      var last := peers[|peers| - 1];
      assert peers == peers[..|peers| - 1] + [last];
      PortsOf(peers[..|peers| - 1]) + if Wanted(last) then [last.port] else []
  }

  // ---- building the text ----

  function Join(ports: seq<nat>): string
    requires ports != []
  {
    if |ports| == 1 then Decimal(ports[0])
    else Decimal(ports[0]) + ", " + Join(ports[1..])
  }

  function BatchText(ports: seq<nat>): string {
    FLUSH + if ports == [] then "" else ADD + (Join(ports) + CLOSE)
  }

  // ---- reading it back ----

  function ElementsOf(ports: seq<nat>): set<nat> {
    set p | p in ports
  }

  /** The length of the numeral at the start. */
  function Digits(s: string): (n: nat)
    ensures n <= |s| && forall i :: 0 <= i < n ==> IsDigit(s[i])
    ensures n < |s| ==> !IsDigit(s[n])
  {
    if s == "" || !IsDigit(s[0]) then 0 else 1 + Digits(s[1..])
  }

  predicate StartsWith(s: string, t: string) {
    |t| <= |s| && s[..|t|] == t
  }

  /** A list of one or more numerals. Returns them and the text that follows. */
  function ReadList(s: string): (r: Option<(seq<nat>, string)>)
    ensures r.Some? ==> r.value.0 != [] && |r.value.1| < |s|
    decreases |s|
  {
    var n := Digits(s);
    if n == 0 then None
    else if StartsWith(s[n..], ", ") then
      match ReadList(s[n + 2..])
      case None => None
      case Some((ports, rest)) => Some(([Value(s[..n])] + ports, rest))
    else Some(([Value(s[..n])], s[n..]))
  }

  /** What nft does with a script, applied to the elements of the set: all commands or none. */
  function Run(script: string, elements: set<nat>): (r: Option<set<nat>>)
    decreases |script|
  {
    if script == "" then Some(elements)
    else if StartsWith(script, FLUSH) then Run(script[|FLUSH|..], {})
    else if StartsWith(script, ADD) then
      match ReadList(script[|ADD|..])
      case None => None
      case Some((ports, rest)) =>
        if StartsWith(rest, CLOSE) then Run(rest[|CLOSE|..], elements + ElementsOf(ports)) else None
    else None
  }

  lemma {:induction false} DigitsOf(t: string, rest: string)
    requires forall i :: 0 <= i < |t| ==> IsDigit(t[i])
    requires rest == "" || !IsDigit(rest[0])
    ensures Digits(t + rest) == |t|
  {
    if t == "" {
      assert t + rest == rest;
    } else {
      assert (t + rest)[1..] == t[1..] + rest;
      DigitsOf(t[1..], rest);
    }
  }

  /** A numeral and what follows it. */
  lemma Numeral(n: nat, rest: string)
    requires rest != "" && !IsDigit(rest[0])
    ensures var s := Decimal(n) + rest;
            Digits(s) == |Decimal(n)| && s[..Digits(s)] == Decimal(n) && s[Digits(s)..] == rest
  {
    DigitsOf(Decimal(n), rest);
  }

  lemma ReadLast(n: nat, rest: string)
    requires rest != "" && rest[0] == ' '
    ensures ReadList(Decimal(n) + rest) == Some(([n], rest))
  {
    Numeral(n, rest);
  }

  lemma ReadNext(n: nat, more: string)
    requires ReadList(more).Some?
    ensures ReadList(Decimal(n) + (", " + more)) == Some(([n] + ReadList(more).value.0, ReadList(more).value.1))
  {
    Numeral(n, ", " + more);
    var s := Decimal(n) + (", " + more);
    assert s[Digits(s) + 2..] == (", " + more)[2..] == more;
  }

  lemma Regroup(a: string, b: string, c: string, d: string)
    ensures a + b + c + d == a + (b + (c + d))
  {
  }

  lemma {:induction false} ReadJoin(ports: seq<nat>, rest: string)
    requires ports != [] && rest != "" && rest[0] == ' '
    ensures ReadList(Join(ports) + rest) == Some((ports, rest))
  {
    if |ports| == 1 {
      ReadLast(ports[0], rest);
      assert ports == [ports[0]];
    } else {
      ReadJoin(ports[1..], rest);
      ReadNext(ports[0], Join(ports[1..]) + rest);
      Regroup(Decimal(ports[0]), ", ", Join(ports[1..]), rest);
      assert ports == [ports[0]] + ports[1..];
    }
  }

  lemma RunFlush(tail: string, before: set<nat>)
    ensures Run(FLUSH + tail, before) == Run(tail, {})
  {
    assert (FLUSH + tail)[|FLUSH|..] == tail;
    assert (FLUSH + tail)[..|FLUSH|] == FLUSH;
  }

  lemma RunAdd(list: string, ports: seq<nat>, before: set<nat>)
    requires ReadList(list) == Some((ports, CLOSE)) && |list| >= |CLOSE|
    ensures Run(ADD + list, before) == Some(before + ElementsOf(ports))
  {
    var s := ADD + list;
    assert s[|ADD|..] == list;
    assert s[..|ADD|] == ADD;
    assert s[0] == ADD[0] && ADD[0] != FLUSH[0];
    assert s[..|FLUSH|][0] == s[0];
    assert CLOSE[|CLOSE|..] == "";
  }

  lemma RunBoth(list: string, ports: seq<nat>, before: set<nat>)
    requires ReadList(list) == Some((ports, CLOSE)) && |list| >= |CLOSE|
    ensures Run(FLUSH + (ADD + list), before) == Some(ElementsOf(ports))
  {
    RunFlush(ADD + list, before);
    RunAdd(list, ports, {});
    assert {} + ElementsOf(ports) == ElementsOf(ports);
    assert Run(ADD + list, {}) == Some(ElementsOf(ports));
  }

  /** Running the batch on any set leaves exactly the listed ports. */
  lemma BatchReplaces(ports: seq<nat>, before: set<nat>)
    ensures Run(BatchText(ports), before) == Some(ElementsOf(ports))
  {
    if ports == [] {
      RunFlush("", before);
      assert FLUSH + "" == FLUSH;
      assert Run("", {}) == Some({}) && ElementsOf(ports) == {};
    } else {
      ReadJoin(ports, CLOSE);
      RunBoth(Join(ports) + CLOSE, ports, before);
    }
  }

  /** `nft_port_batch` */
  method PortBatch(ports: seq<nat>) returns (batch: string)
    ensures batch == BatchText(ports)
    ensures batch == "flush set inet nixos-fw autopeer-ports\n"
                     + if ports == [] then ""
                       else "add element inet nixos-fw autopeer-ports { " + (Join(ports) + " }\n")
    ensures forall before :: Run(batch, before) == Some(ElementsOf(ports))
  {
    batch := FLUSH;
    if ports != [] {
      batch := batch + (ADD + (Join(ports) + CLOSE));
    }
    forall before ensures Run(batch, before) == Some(ElementsOf(ports)) {
      BatchReplaces(ports, before);
    }
  }

  /** The text `sync_nft_ports_for` hands to nft. Whatever the set was, it becomes the ports of the wanted
      rows, each named once. */
  method SyncBatch(peers: seq<Peer>) returns (batch: string, ghost ports: seq<nat>)
    ensures batch == BatchText(ports) && Increasing(ports)
    ensures forall x :: x in ports <==>
                        exists p :: p in peers && p.port == x && p.status != Deleting && p.status != Disabled
    ensures forall before :: Run(batch, before) == Some(set p | p in peers && Wanted(p) :: p.port)
  {
    var list := PortsOf(peers);
    var sorted := Sort(list);
    ports := Dedup(sorted);
    assert ElementsOf(ports) == (set p | p in peers && Wanted(p) :: p.port);
    batch := PortBatch(Dedup(sorted));
  }

  /** For a table, that is the port set the protocol works with. */
  lemma SnapshotPorts(rows: map<nat, Peer>, peers: seq<Peer>)
    requires forall p :: p in peers <==> exists n :: n in rows && rows[n] == p
    ensures (set p | p in peers && Wanted(p) :: p.port) == DesiredPorts(rows)
  {
    forall x | x in DesiredPorts(rows) ensures exists p :: p in peers && Wanted(p) && p.port == x {
      var n :| n in rows && Wanted(rows[n]) && rows[n].port == x;
      assert rows[n] in peers;
    }
  }
}
