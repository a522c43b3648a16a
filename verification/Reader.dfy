/** Reading a signing text, and an address in it, without the functions that write them. */
module Reader {
  import opened Peers
  import opened Message
  import Text
  import LinkLocal

  datatype Result<+T> = Ok(value: T) | Malformed

  // ---- lines ----

  /** Where c first occurs; the length if it does not. */
  function First(s: string, c: char): (i: nat)
    ensures i <= |s| && c !in s[..i] && (i < |s| ==> s[i] == c)
  {
    if s == "" || s[0] == c then 0 else 1 + First(s[1..], c)
  }

  /** Where c last occurs; the length if it does not. */
  function Last(s: string, c: char): (i: nat)
    ensures i <= |s| && (i < |s| ==> s[i] == c && c !in s[i + 1..])
  {
    if s == "" then 0
    else
      var n := |s| - 1;
      if s[n] == c then n
      else
        var i := Last(s[..n], c);
        if i < n then
          assert s[i + 1..] == s[..n][i + 1..] + [s[n]];
          i
        else n + 1
  }

  /** The rest of the first line if it starts with the label, and the text after that line. */
  function Field(s: string, mark: string): Result<(string, string)> {
    var i := First(s, '\n');
    if i < |s| && mark <= s[..i] then Ok((s[|mark|..i], s[i + 1..])) else Malformed
  }

  /** One line for each label. */
  function Fields(s: string, labels: seq<string>): Result<(seq<string>, string)>
    decreases |labels|
  {
    if labels == [] then Ok(([], s))
    else
      var field := Field(s, labels[0]);
      if field.Malformed? then Malformed
      else
        var others := Fields(field.value.1, labels[1..]);
        if others.Malformed? then Malformed else Ok(([field.value.0] + others.value.0, others.value.1))
  }

  // ---- values ----

  function ReadEndpoint(s: string): Option<string> {
    if s == "none" then None else Some(s)
  }

  function ReadMtu(s: string): Option<nat> {
    if s == "default" then None else Some(Text.Value(s))
  }

  function ReadNewEndpoint(s: string): Result<Option<Option<string>>> {
    if s == "unchanged" then Ok(None)
    else if s == "clear" then Ok(Some(None))
    else if "set:" <= s then Ok(Some(Some(s[4..])))
    else Malformed
  }

  function ReadNewMtu(s: string): Result<Option<Option<nat>>> {
    if s == "unchanged" then Ok(None)
    else if s == "default" then Ok(Some(None))
    else if "set:" <= s then Ok(Some(Some(Text.Value(s[4..]))))
    else Malformed
  }

  // ---- the text ----

  const HEAD: seq<string> := ["DN42-AUTOPEER-V3", "operation:", "asn:", "peer_name:"]
  const BODY: seq<string> := ["pubkey:", "endpoint:", "link_local:", "mtu:"]

  /** Nonce and expiry. The nonce ends at the last line break. */
  function ReadEnding(s: string): Result<(string, int)> {
    var i := Last(s, '\n');
    if "nonce:" <= s && 6 <= i < |s| && "expires_at:" <= s[i + 1..] then
      Ok((s[6..i], Text.SignedValue(s[i + 1..][11..])))
    else Malformed
  }

  /** The request without its link-local field, and the text of that field. */
  function Read(s: string): Result<(Message, string)> {
    var head := Fields(s, HEAD);
    if head.Malformed? || |head.value.0| != 4 || head.value.0[0] != "" then Malformed
    else
      var operation, asn, name := head.value.0[1], Text.Value(head.value.0[2]), head.value.0[3];
      if operation == "delete" then
        var end := ReadEnding(head.value.1);
        if end.Malformed? then Malformed else Ok((Delete(asn, name, end.value.0, end.value.1), ""))
      else ReadChange(operation, asn, name, head.value.1)
  }

  function ReadChange(operation: string, asn: nat, name: string, s: string): Result<(Message, string)> {
    var body := Fields(s, BODY);
    if body.Malformed? || |body.value.0| != 4 then Malformed
    else
      var pubkey, endpoint, ll, mtu := body.value.0[0], body.value.0[1], body.value.0[2], body.value.0[3];
      var end := ReadEnding(body.value.1);
      if end.Malformed? then Malformed
      else if operation == "create" then
        Ok((Create(asn, name, pubkey, ReadEndpoint(endpoint), None, ReadMtu(mtu), end.value.0, end.value.1), ll))
      else if operation == "update" && ReadNewEndpoint(endpoint).Ok? && ReadNewMtu(mtu).Ok? then
        Ok((Update(asn, name, pubkey, ReadNewEndpoint(endpoint).value, None, ReadNewMtu(mtu).value, end.value.0,
                   end.value.1), ll))
      else Malformed
  }

  // ---- an address ----

  /** The texts between the separators. */
  function Split(s: string, c: char): (t: seq<string>)
    ensures t != []
  {
    var i := First(s, c);
    if i == |s| then [s] else [s[..i]] + Split(s[i + 1..], c)
  }

  function Numbers(t: seq<string>): (n: seq<nat>)
    ensures |n| == |t|
  {
    seq(|t|, i requires 0 <= i < |t| => LinkLocal.HexValue(t[i]))
  }

  function ReadGroups(s: string): seq<nat> {
    if s == "" then [] else Numbers(Split(s, ':'))
  }

  /** Where two colons first stand together; the length if they do not. */
  function Gap(s: string): (i: nat)
    ensures i <= |s| && (i < |s| ==> i + 1 < |s| && s[i] == s[i + 1] == ':')
  {
    if |s| < 2 then |s| else if s[0] == s[1] == ':' then 0 else 1 + Gap(s[1..])
  }

  /** Eight groups, or two lists of groups with zeros for the `::` between them. */
  function ReadAddress(s: string): seq<nat> {
    var i := Gap(s);
    if i == |s| then ReadGroups(s)
    else Filled(ReadGroups(s[..i]), ReadGroups(s[i + 2..]))
  }

  function Filled(head: seq<nat>, tail: seq<nat>): seq<nat> {
    if |head| + |tail| > 7 then [] else head + seq(8 - |head| - |tail|, _ => 0) + tail
  }

  /** The field names the automatic addresses, or both addresses of the pair, local first. */
  predicate NamesPair(s: string, ll: LinkLocals) {
    match ll
    case None => s == "auto"
    case Some((local, remote)) =>
      && "manual:" <= s
      && exists i :: 7 <= i < |s| && s[i] == ':' && ReadAddress(s[7..i]) == local && ReadAddress(s[i + 1..]) == remote
  }

  // ---- reading lines back ----

  lemma {:induction false} FirstAt(s: string, c: char, rest: string)
    requires c !in s
    ensures First(s + [c] + rest, c) == |s|
  {
    var t := s + [c] + rest;
    var i := First(t, c);
    assert t[|s|] == c && forall k :: 0 <= k < |s| ==> t[k] == s[k];
    assert forall k :: 0 <= k < i ==> t[..i][k] == t[k];
  }

  lemma {:induction false} LastAt(s: string, c: char, rest: string)
    requires c !in rest
    ensures Last(s + [c] + rest, c) == |s|
    decreases |rest|
  {
    var t := s + [c] + rest;
    if rest == "" {
      assert t[|t| - 1] == c && |t| == |s| + 1;
    } else {
      var n := |rest| - 1;
      assert t[..|t| - 1] == s + [c] + rest[..n] && t[|t| - 1] == rest[n];
      assert rest[n] in rest;
      LastAt(s, c, rest[..n]);
    }
  }

  lemma FieldReads(mark: string, value: string, rest: string)
    requires '\n' !in mark && '\n' !in value
    ensures Field(mark + value + "\n" + rest, mark) == Ok((value, rest))
  {
    var s := mark + value + "\n" + rest;
    FirstAt(mark + value, '\n', rest);
    assert s[..|mark + value|] == mark + value && s[|mark + value| + 1..] == rest;
    assert (mark + value)[|mark|..] == value;
  }

  predicate AllUnbroken(t: seq<string>) {
    forall i :: 0 <= i < |t| ==> '\n' !in t[i]
  }

  function Joined(labels: seq<string>, values: seq<string>): (lines: seq<string>)
    requires |labels| == |values|
    ensures |lines| == |labels|
  {
    seq(|labels|, i requires 0 <= i < |labels| => labels[i] + values[i])
  }

  lemma {:induction false} FieldsRead(labels: seq<string>, values: seq<string>, rest: string)
    requires |labels| == |values| && AllUnbroken(labels) && AllUnbroken(values)
    ensures Fields(Lines(Joined(labels, values)) + rest, labels) == Ok((values, rest))
    decreases |labels|
  {
    var lines := Joined(labels, values);
    if labels == [] {
      assert Lines(lines) + rest == rest;
    } else {
      assert lines[1..] == Joined(labels[1..], values[1..]);
      FieldReads(labels[0], values[0], Lines(lines[1..]) + rest);
      assert Lines(lines) + rest == labels[0] + values[0] + "\n" + (Lines(lines[1..]) + rest);
      FieldsRead(labels[1..], values[1..], rest);
      assert values == [values[0]] + values[1..];
    }
  }

  lemma Prefixed(a: string, b: string)
    ensures a <= a + b && (a + b)[|a|..] == b
  {
  }

  lemma EndingParts(nonce: string, expiry: string)
    requires '\n' !in expiry
    ensures ReadEnding("nonce:" + nonce + "\n" + ("expires_at:" + expiry)) == Ok((nonce, Text.SignedValue(expiry)))
  {
    var start, end := "nonce:" + nonce, "expires_at:" + expiry;
    var s := start + "\n" + end;
    LastAt(start, '\n', end);
    Prefixed("nonce:", nonce);
    Prefixed("expires_at:", expiry);
    Prefixed(start + "\n", end);
    assert s[..|start|] == start;
    assert s[6..|start|] == start[6..];
  }

  // ---- reading a message back ----

  lemma HeadRead(operation: string, asn: string, name: string, rest: string)
    requires '\n' !in operation && '\n' !in asn && '\n' !in name
    ensures Fields(Lines(FirstLines(operation, asn, name)) + rest, HEAD) == Ok((["", operation, asn, name], rest))
  {
    var values := ["", operation, asn, name];
    var lines := Joined(HEAD, values);
    assert lines[0] == "DN42-AUTOPEER-V3" + "" == "DN42-AUTOPEER-V3";
    assert FirstLines(operation, asn, name) == lines;
    FieldsRead(HEAD, values, rest);
  }

  lemma BodyRead(pubkey: string, endpoint: string, ll: string, mtu: string, rest: string)
    requires '\n' !in pubkey && '\n' !in endpoint && '\n' !in ll && '\n' !in mtu
    ensures Fields(Lines(FieldLines(pubkey, endpoint, ll, mtu)) + rest, BODY) == Ok(([pubkey, endpoint, ll, mtu], rest))
  {
    var values := [pubkey, endpoint, ll, mtu];
    assert FieldLines(pubkey, endpoint, ll, mtu) == Joined(BODY, values);
    FieldsRead(BODY, values, rest);
  }

  lemma {:induction false} LinesJoin(a: seq<string>, b: seq<string>, rest: string)
    ensures Lines(a + b) + rest == Lines(a) + (Lines(b) + rest)
  {
    if a == [] {
      assert a + b == b;
    } else {
      assert (a + b)[1..] == a[1..] + b;
      LinesJoin(a[1..], b, rest);
      assert Lines(a + b) + rest == a[0] + "\n" + (Lines(a[1..] + b) + rest);
    }
  }

  lemma EndpointReads(e: Option<string>)
    requires e.Some? ==> IsEndpoint(e.value)
    ensures ReadEndpoint(EndpointText(e)) == e
  {
  }

  lemma MtuReads(m: Option<nat>)
    ensures ReadMtu(MtuText(m)) == m
  {
    if m.Some? { assert Text.IsDigit(Text.Decimal(m.value)[0]); }
  }

  lemma NewEndpointReads(e: Option<Option<string>>)
    ensures ReadNewEndpoint(NewEndpointText(e)) == Ok(e)
  {
    if e.Some? && e.value.Some? {
      Prefixed("set:", e.value.value);
      assert NewEndpointText(e)[0] == 's';
    }
  }

  lemma NewMtuReads(m: Option<Option<nat>>)
    ensures ReadNewMtu(NewMtuText(m)) == Ok(m)
  {
    if m.Some? && m.value.Some? {
      Prefixed("set:", Text.Decimal(m.value.value));
      assert NewMtuText(m)[0] == 's';
    }
  }

  /** The fields a reader finds in the text of m. */
  predicate Reads(read: Result<(Message, string)>, m: Message) {
    && read.Ok?
    && var k := read.value.0;
       && k.asn == m.asn && k.name == m.name && k.nonce == m.nonce && k.expires == m.expires
       && (m.Create? ==> k.Create? && k.pubkey == m.pubkey && k.endpoint == m.endpoint && k.mtu == m.mtu)
       && (m.Update? ==> k.Update? && k.pubkey == m.pubkey && k.newEndpoint == m.newEndpoint && k.newMtu == m.newMtu)
       && (m.Delete? ==> k.Delete?)
       && (!m.Delete? ==> NamesPair(read.value.1, m.ll))
  }

  lemma EndingReads(m: Message)
    ensures ReadEnding(Ending(m)) == Ok((m.nonce, m.expires))
  {
    ExpiryUnbroken(m.expires);
    EndingParts(m.nonce, Text.Integer(m.expires));
  }

  lemma HeadReads(operation: string, asn: string, name: string, rest: string)
    requires '\n' !in operation && '\n' !in asn && '\n' !in name
    ensures operation != "delete" ==>
              Read(Lines(FirstLines(operation, asn, name)) + rest)
              == ReadChange(operation, Text.Value(asn), name, rest)
    ensures operation == "delete" && ReadEnding(rest).Ok? ==>
              Read(Lines(FirstLines(operation, asn, name)) + rest)
              == Ok((Delete(Text.Value(asn), name, ReadEnding(rest).value.0, ReadEnding(rest).value.1), ""))
  {
    HeadRead(operation, asn, name, rest);
  }

  lemma CreateReads(asn: nat, name: string, pubkey: string, endpoint: string, ll: string, mtu: string, rest: string)
    requires '\n' !in pubkey && '\n' !in endpoint && '\n' !in ll && '\n' !in mtu && ReadEnding(rest).Ok?
    ensures ReadChange("create", asn, name, Lines(FieldLines(pubkey, endpoint, ll, mtu)) + rest)
         == Ok((Create(asn, name, pubkey, ReadEndpoint(endpoint), None, ReadMtu(mtu), ReadEnding(rest).value.0,
                       ReadEnding(rest).value.1), ll))
  {
    BodyRead(pubkey, endpoint, ll, mtu, rest);
  }

  lemma UpdateReads(asn: nat, name: string, pubkey: string, endpoint: string, ll: string, mtu: string, rest: string)
    requires '\n' !in pubkey && '\n' !in endpoint && '\n' !in ll && '\n' !in mtu && ReadEnding(rest).Ok?
    requires ReadNewEndpoint(endpoint).Ok? && ReadNewMtu(mtu).Ok?
    ensures ReadChange("update", asn, name, Lines(FieldLines(pubkey, endpoint, ll, mtu)) + rest)
         == Ok((Update(asn, name, pubkey, ReadNewEndpoint(endpoint).value, None, ReadNewMtu(mtu).value,
                       ReadEnding(rest).value.0, ReadEnding(rest).value.1), ll))
  {
    BodyRead(pubkey, endpoint, ll, mtu, rest);
    assert "update"[0] != "create"[0];
  }

  /** Every text says what its request says, field by field. */
  lemma MessageReads(m: Message)
    requires Valid(m)
    ensures Reads(Read(MessageText(m)), m)
  {
    if m.Delete? {
      DeletionText(m);
      EndingReads(m);
      RemovalReads(m, Ending(m));
    } else {
      HeadedText(m);
      OtherReads(m, Lines(Body(m)) + Ending(m));
      ChangeReads(m);
    }
  }

  lemma HeadedText(m: Message)
    ensures MessageText(m)
         == Lines(FirstLines(Operation(m), Text.Decimal(m.asn), m.name)) + (Lines(Body(m)) + Ending(m))
  {
    LinesJoin(FirstLines(Operation(m), Text.Decimal(m.asn), m.name), Body(m), Ending(m));
  }

  lemma DeletionText(m: Message)
    requires m.Delete?
    ensures MessageText(m) == Lines(FirstLines("delete", Text.Decimal(m.asn), m.name)) + Ending(m)
  {
    assert Header(m) == FirstLines("delete", Text.Decimal(m.asn), m.name);
  }

  lemma RemovalReads(m: Message, rest: string)
    requires m.Delete? && '\n' !in m.name && ReadEnding(rest) == Ok((m.nonce, m.expires))
    ensures Reads(Read(Lines(FirstLines("delete", Text.Decimal(m.asn), m.name)) + rest), m)
  {
    HeadReads("delete", Text.Decimal(m.asn), m.name, rest);
  }

  lemma OtherReads(m: Message, rest: string)
    requires Valid(m) && !m.Delete?
    ensures Read(Lines(FirstLines(Operation(m), Text.Decimal(m.asn), m.name)) + rest)
         == ReadChange(Operation(m), m.asn, m.name, rest)
  {
    HeadReads(Operation(m), Text.Decimal(m.asn), m.name, rest);
    assert Operation(m)[0] != "delete"[0];
  }

  lemma ChangeReads(m: Message)
    requires Valid(m) && !m.Delete?
    ensures Reads(ReadChange(Operation(m), m.asn, m.name, Lines(Body(m)) + Ending(m)), m)
  {
    EndingReads(m);
    PairReads(m.ll);
    if m.Create? {
      EndpointUnbroken(m.endpoint);
      MtuUnbroken(m.mtu, None);
      CreateReads(m.asn, m.name, m.pubkey, EndpointText(m.endpoint), LinkLocal.FieldText(m.ll), MtuText(m.mtu),
                  Ending(m));
      EndpointReads(m.endpoint);
      MtuReads(m.mtu);
    } else {
      NewEndpointUnbroken(m.newEndpoint);
      MtuUnbroken(None, m.newMtu);
      NewEndpointReads(m.newEndpoint);
      NewMtuReads(m.newMtu);
      UpdateReads(m.asn, m.name, m.pubkey, NewEndpointText(m.newEndpoint), LinkLocal.FieldText(m.ll),
                  NewMtuText(m.newMtu), Ending(m));
    }
  }

  // ---- reading an address back ----

  /** Several groups side by side. */
  function Plain(g: seq<nat>): string {
    LinkLocal.Print(LinkLocal.Groups(g))
  }

  /** No two colons together, and none at either end. */
  predicate Tidy(s: string) {
    Gap(s) == |s| && (s != "" ==> s[0] != ':' && s[|s| - 1] != ':')
  }

  lemma PlainStep(g: seq<nat>)
    requires |g| > 1
    ensures Plain(g) == LinkLocal.Hex(g[0]) + [':'] + Plain(g[1..])
  {
    assert LinkLocal.Groups(g)[1..] == LinkLocal.Groups(g[1..]);
  }

  lemma NumbersStep(h: string, t: seq<string>)
    ensures Numbers([h] + t) == [LinkLocal.HexValue(h)] + Numbers(t)
  {
  }

  lemma SplitStep(h: string, rest: string)
    requires ':' !in h
    ensures Split(h + [':'] + rest, ':') == [h] + Split(rest, ':')
  {
    var s := h + [':'] + rest;
    FirstAt(h, ':', rest);
    assert s[..|h|] == h && s[|h| + 1..] == rest;
  }

  lemma SplitLast(h: string)
    requires ':' !in h
    ensures Split(h, ':') == [h]
  {
    assert forall k :: 0 <= k < |h| ==> h[k] in h;
  }

  lemma {:induction false} SplitReads(g: seq<nat>)
    requires g != []
    ensures Numbers(Split(Plain(g), ':')) == g && Plain(g) != ""
  {
    var h := LinkLocal.Hex(g[0]);
    if |g| == 1 {
      SplitLast(h);
      assert Numbers([h]) == [g[0]] == g;
    } else {
      PlainStep(g);
      SplitStep(h, Plain(g[1..]));
      SplitReads(g[1..]);
      NumbersStep(h, Split(Plain(g[1..]), ':'));
      assert g == [g[0]] + g[1..];
    }
  }

  lemma GroupsRead(g: seq<nat>)
    ensures ReadGroups(Plain(g)) == g
  {
    if g != [] { SplitReads(g); }
  }

  /** A text with no two colons together, followed by two. */
  lemma {:induction false} GapAt(s: string, rest: string)
    requires Gap(s) == |s| && (s != "" ==> s[|s| - 1] != ':')
    ensures Gap(s + "::" + rest) == |s|
    decreases |s|
  {
    var t := s + "::" + rest;
    if s == "" {
      assert t[0] == t[1] == ':';
    } else {
      assert t[1..] == s[1..] + "::" + rest;
      assert t[0] == s[0] && (|s| > 1 ==> t[1] == s[1]);
      GapAt(s[1..], rest);
    }
  }

  /** The same, followed by one colon and such a text. */
  lemma {:induction false} GapAfter(s: string, rest: string)
    requires ':' !in s && s != "" && Tidy(rest) && rest != ""
    ensures Tidy(s + [':'] + rest)
    decreases |s|
  {
    var t := s + [':'] + rest;
    assert t[1..] == s[1..] + [':'] + rest && t[0] == s[0] && s[0] in s;
    if |s| == 1 {
      assert t[1..][1..] == rest && t[1] == ':' && t[2] == rest[0];
      assert Gap(t[1..]) == 1 + Gap(rest);
    } else {
      assert t[1] == s[1] && s[1] in s;
      GapAfter(s[1..], rest);
    }
  }

  lemma {:induction false} NoColons(s: string)
    requires ':' !in s
    ensures Tidy(s)
    decreases |s|
  {
    if |s| >= 2 {
      assert s[0] in s && s[|s| - 1] in s;
      NoColons(s[1..]);
    }
  }

  lemma {:induction false} PlainTidy(g: seq<nat>)
    ensures Tidy(Plain(g))
  {
    if |g| == 1 {
      NoColons(LinkLocal.Hex(g[0]));
    } else if |g| > 1 {
      PlainStep(g);
      PlainTidy(g[1..]);
      SplitReads(g[1..]);
      GapAfter(LinkLocal.Hex(g[0]), Plain(g[1..]));
    }
  }

  lemma EmptyToken(a: string, b: string)
    ensures a + ":" + ("" + ":" + b) == a + "::" + b
  {
  }

  /** How the code of a form is printed. */
  lemma CodePrints(f: LinkLocal.Form)
    requires f.head != []
    ensures LinkLocal.Print(LinkLocal.Code(f))
         == if f.tail.None? then Plain(f.head) else Plain(f.head) + "::" + Plain(f.tail.value)
  {
    if f.tail.Some? {
      var end := if f.tail.value == [] then [None] else LinkLocal.Groups(f.tail.value);
      assert LinkLocal.Code(f) == LinkLocal.Groups(f.head) + ([None] + end);
      LinkLocal.PrintJoin(LinkLocal.Groups(f.head), [None] + end);
      assert ([None] + end)[1..] == end;
      assert LinkLocal.Print(end) == Plain(f.tail.value);
      EmptyToken(Plain(f.head), Plain(f.tail.value));
    }
  }

  lemma UngappedReads(head: seq<nat>)
    ensures ReadAddress(Plain(head)) == head
  {
    PlainTidy(head);
    GroupsRead(head);
  }

  lemma FilledExpands(head: seq<nat>, tail: seq<nat>)
    requires |head| + |tail| <= 7
    ensures Filled(head, tail) == LinkLocal.Expand(head, tail)
  {
  }

  lemma AroundGap(h: string, t: string)
    ensures (h + "::" + t)[..|h|] == h && (h + "::" + t)[|h| + 2..] == t
  {
  }

  lemma GappedReads(head: seq<nat>, tail: seq<nat>)
    requires |head| + |tail| <= 6
    ensures ReadAddress(Plain(head) + "::" + Plain(tail)) == LinkLocal.Expand(head, tail)
  {
    PlainTidy(head);
    GapAt(Plain(head), Plain(tail));
    GroupsRead(head);
    GroupsRead(tail);
    AroundGap(Plain(head), Plain(tail));
    FilledExpands(head, tail);
  }

  /** A link-local address is read back from its text. */
  lemma AddressReads(a: Ipv6)
    requires LinkLocal.IsLinkLocal(a)
    ensures ReadAddress(LinkLocal.AddressText(a)) == a
  {
    var f := LinkLocal.FormOf(a);
    LinkLocal.FormExpands(a);
    CodePrints(f);
    if f.tail.None? { UngappedReads(f.head); } else { GappedReads(f.head, f.tail.value); }
  }

  lemma PairParts(local: string, remote: string)
    ensures NamesPair("manual:" + local + ":" + remote, Some((ReadAddress(local), ReadAddress(remote))))
  {
    var s, i := "manual:" + local + ":" + remote, 7 + |local|;
    Prefixed("manual:", local);
    Prefixed("manual:" + local, ":" + remote);
    Prefixed("manual:" + local + ":", remote);
    assert s[i] == ':' && s[7..i] == local && s[i + 1..] == remote;
  }

  lemma PairReads(ll: LinkLocals)
    requires LinkLocal.Accepted(ll)
    ensures NamesPair(LinkLocal.FieldText(ll), ll)
  {
    if ll.Some? {
      AddressReads(ll.value.0);
      AddressReads(ll.value.1);
      PairParts(LinkLocal.AddressText(ll.value.0), LinkLocal.AddressText(ll.value.1));
    }
  }
}
