/** The text a client signs. Equal texts are the same request. */
module Message {
  import opened Peers
  import Text
  import LinkLocal

  type LinkLocals = Option<(Ipv6, Ipv6)>

  /** A signed request. An absent field is `None`; for an update, `Some(None)` is an explicit null. */
  datatype Message =
    | Create(asn: nat, name: string, pubkey: string, endpoint: Option<string>, ll: LinkLocals,
             mtu: Option<nat>, nonce: string, expires: int)
    | Update(asn: nat, name: string, pubkey: string, newEndpoint: Option<Option<string>>, ll: LinkLocals,
             newMtu: Option<Option<nat>>, nonce: string, expires: int)
    | Delete(asn: nat, name: string, nonce: string, expires: int)

  // ---- what reaches the builders ----

  predicate NameChar(c: char) {
    'a' <= c <= 'z' || '0' <= c <= '9'
  }

  /** What `parse_peer_name` lets through. */
  predicate IsPeerName(s: string) {
    && 1 <= |s| <= 32 && NameChar(s[0])
    && forall i :: 1 <= i < |s| ==> NameChar(s[i]) || s[i] == '-'
  }

  /** A normalised endpoint: no line break, and a colon before the port. */
  predicate IsEndpoint(s: string) {
    '\n' !in s && exists i :: 0 <= i < |s| && s[i] == ':'
  }

  predicate Valid(m: Message) {
    && IsPeerName(m.name)
    && (!m.Delete? ==> '\n' !in m.pubkey && LinkLocal.Accepted(m.ll))
    && (m.Create? && m.endpoint.Some? ==> IsEndpoint(m.endpoint.value))
    && (m.Update? && m.newEndpoint.Some? && m.newEndpoint.value.Some? ==> IsEndpoint(m.newEndpoint.value.value))
  }

  // ---- the text ----

  function EndpointText(e: Option<string>): string {
    if e.Some? then e.value else "none"
  }

  function NewEndpointText(e: Option<Option<string>>): string {
    match e
    case None => "unchanged"
    case Some(None) => "clear"
    case Some(Some(v)) => "set:" + v
  }

  function MtuText(m: Option<nat>): string {
    if m.Some? then Text.Decimal(m.value) else "default"
  }

  function NewMtuText(m: Option<Option<nat>>): string {
    match m
    case None => "unchanged"
    case Some(None) => "default"
    case Some(Some(v)) => "set:" + Text.Decimal(v)
  }

  function Operation(m: Message): string {
    match m
    case Create(_, _, _, _, _, _, _, _) => "create"
    case Update(_, _, _, _, _, _, _, _) => "update"
    case Delete(_, _, _, _) => "delete"
  }

  function FieldLines(pubkey: string, endpoint: string, linkLocal: string, mtu: string): seq<string> {
    ["pubkey:" + pubkey, "endpoint:" + endpoint, "link_local:" + linkLocal, "mtu:" + mtu]
  }

  function Body(m: Message): seq<string> {
    match m
    case Create(_, _, pubkey, endpoint, ll, mtu, _, _) =>
      FieldLines(pubkey, EndpointText(endpoint), LinkLocal.FieldText(ll), MtuText(mtu))
    case Update(_, _, pubkey, endpoint, ll, mtu, _, _) =>
      FieldLines(pubkey, NewEndpointText(endpoint), LinkLocal.FieldText(ll), NewMtuText(mtu))
    case Delete(_, _, _, _) => []
  }

  function FirstLines(operation: string, asn: string, name: string): seq<string> {
    ["DN42-AUTOPEER-V3", "operation:" + operation, "asn:" + asn, "peer_name:" + name]
  }

  /** The lines before the nonce. */
  function Header(m: Message): seq<string> {
    FirstLines(Operation(m), Text.Decimal(m.asn), m.name) + Body(m)
  }

  function Lines(lines: seq<string>): string {
    if lines == [] then "" else lines[0] + "\n" + Lines(lines[1..])
  }

  function Ending(m: Message): string {
    "nonce:" + m.nonce + "\n" + ("expires_at:" + Text.Integer(m.expires))
  }

  /** `build_create_message`, `build_update_message`, `build_delete_message` */
  function MessageText(m: Message): string {
    Lines(Header(m)) + Ending(m)
  }

  // ---- lines ----

  predicate Unbroken(lines: seq<string>) {
    forall i :: 0 <= i < |lines| ==> '\n' !in lines[i]
  }

  lemma {:induction false} SameLines(a: seq<string>, x: string, b: seq<string>, y: string)
    requires |a| <= |b| && Unbroken(a) && Unbroken(b)
    requires Lines(a) + x == Lines(b) + y
    ensures a == b[..|a|] && x == Lines(b[|a|..]) + y
  {
    if a == [] {
      assert Lines(a) + x == x && b[..0] == a && b[0..] == b;
    } else {
      assert Lines(a) + x == a[0] + ['\n'] + (Lines(a[1..]) + x);
      assert Lines(b) + y == b[0] + ['\n'] + (Lines(b[1..]) + y);
      Text.FirstCut(a[0], Lines(a[1..]) + x, b[0], Lines(b[1..]) + y, '\n');
      SameLines(a[1..], x, b[1..], y);
      assert b[1..][|a| - 1..] == b[|a|..];
      assert a == [a[0]] + a[1..] && b[..|a|] == [b[0]] + b[1..][..|a| - 1];
    }
  }

  lemma FirstUnbroken(operation: string, asn: string, name: string)
    requires '\n' !in operation && '\n' !in asn && '\n' !in name
    ensures Unbroken(FirstLines(operation, asn, name))
  {
  }

  lemma FieldsUnbroken(pubkey: string, endpoint: string, linkLocal: string, mtu: string)
    requires '\n' !in pubkey && '\n' !in endpoint && '\n' !in linkLocal && '\n' !in mtu
    ensures Unbroken(FieldLines(pubkey, endpoint, linkLocal, mtu))
  {
  }

  lemma EndpointUnbroken(e: Option<string>)
    requires e.Some? ==> IsEndpoint(e.value)
    ensures '\n' !in EndpointText(e)
  {
  }

  lemma NewEndpointUnbroken(e: Option<Option<string>>)
    requires e.Some? && e.value.Some? ==> IsEndpoint(e.value.value)
    ensures '\n' !in NewEndpointText(e)
  {
  }

  lemma MtuUnbroken(m: Option<nat>, n: Option<Option<nat>>)
    ensures '\n' !in MtuText(m) && '\n' !in NewMtuText(n)
  {
  }

  lemma BodyUnbroken(m: Message)
    requires Valid(m)
    ensures Unbroken(Body(m))
  {
    if m.Create? {
      EndpointUnbroken(m.endpoint);
      MtuUnbroken(m.mtu, None);
      FieldsUnbroken(m.pubkey, EndpointText(m.endpoint), LinkLocal.FieldText(m.ll), MtuText(m.mtu));
    } else if m.Update? {
      NewEndpointUnbroken(m.newEndpoint);
      MtuUnbroken(None, m.newMtu);
      FieldsUnbroken(m.pubkey, NewEndpointText(m.newEndpoint), LinkLocal.FieldText(m.ll), NewMtuText(m.newMtu));
    }
  }

  lemma HeaderUnbroken(m: Message)
    requires Valid(m)
    ensures Unbroken(Header(m))
  {
    FirstUnbroken(Operation(m), Text.Decimal(m.asn), m.name);
    BodyUnbroken(m);
    JoinUnbroken(FirstLines(Operation(m), Text.Decimal(m.asn), m.name), Body(m));
  }

  lemma JoinUnbroken(a: seq<string>, b: seq<string>)
    requires Unbroken(a) && Unbroken(b)
    ensures Unbroken(a + b)
  {
  }

  // ---- fields ----

  lemma FirstLinesDetermine(op: string, asn: string, name: string, op': string, asn': string, name': string)
    requires FirstLines(op, asn, name) == FirstLines(op', asn', name')
    ensures op == op' && asn == asn' && name == name'
  {
    var a, b := FirstLines(op, asn, name), FirstLines(op', asn', name');
    assert a[1] == b[1] && a[2] == b[2] && a[3] == b[3];
    Text.SamePrefix("operation:", op, op');
    Text.SamePrefix("asn:", asn, asn');
    Text.SamePrefix("peer_name:", name, name');
  }

  lemma FieldLinesDetermine(
    pubkey: string, endpoint: string, ll: string, mtu: string, pubkey': string, endpoint': string, ll': string,
              mtu': string)
    requires FieldLines(pubkey, endpoint, ll, mtu) == FieldLines(pubkey', endpoint', ll', mtu')
    ensures pubkey == pubkey' && endpoint == endpoint' && ll == ll' && mtu == mtu'
  {
    var a, b := FieldLines(pubkey, endpoint, ll, mtu), FieldLines(pubkey', endpoint', ll', mtu');
    assert a[0] == b[0] && a[1] == b[1] && a[2] == b[2] && a[3] == b[3];
    Text.SamePrefix("pubkey:", pubkey, pubkey');
    Text.SamePrefix("endpoint:", endpoint, endpoint');
    Text.SamePrefix("link_local:", ll, ll');
    Text.SamePrefix("mtu:", mtu, mtu');
  }

  lemma EndpointDetermines(a: Option<string>, b: Option<string>)
    requires (a.Some? ==> IsEndpoint(a.value)) && (b.Some? ==> IsEndpoint(b.value))
    requires EndpointText(a) == EndpointText(b)
    ensures a == b
  {
    assert ':' !in "none";
  }

  lemma NewEndpointDetermines(a: Option<Option<string>>, b: Option<Option<string>>)
    requires NewEndpointText(a) == NewEndpointText(b)
    ensures a == b
  {
    var x, y := NewEndpointText(a), NewEndpointText(b);
    assert x[0] == y[0];
    if a.Some? && a.value.Some? && b.Some? && b.value.Some? {
      Text.SamePrefix("set:", a.value.value, b.value.value);
    }
  }

  lemma MtuDetermines(a: Option<nat>, b: Option<nat>)
    requires MtuText(a) == MtuText(b)
    ensures a == b
  {
    assert MtuText(a)[0] == MtuText(b)[0];
  }

  lemma NewMtuDetermines(a: Option<Option<nat>>, b: Option<Option<nat>>)
    requires NewMtuText(a) == NewMtuText(b)
    ensures a == b
  {
    var x, y := NewMtuText(a), NewMtuText(b);
    assert x[0] == y[0];
    if a.Some? && a.value.Some? && b.Some? && b.value.Some? {
      Text.SamePrefix("set:", Text.Decimal(a.value.value), Text.Decimal(b.value.value));
    }
  }

  lemma EndingDetermines(m: Message, k: Message)
    requires Ending(m) == Ending(k)
    ensures m.nonce == k.nonce && m.expires == k.expires
  {
    var e, e' := "expires_at:" + Text.Integer(m.expires), "expires_at:" + Text.Integer(k.expires);
    ExpiryUnbroken(m.expires);
    ExpiryUnbroken(k.expires);
    Text.LastCut("nonce:" + m.nonce, e, "nonce:" + k.nonce, e', '\n');
    Text.SamePrefix("nonce:", m.nonce, k.nonce);
    Text.SamePrefix("expires_at:", Text.Integer(m.expires), Text.Integer(k.expires));
  }

  lemma ExpiryUnbroken(n: int)
    ensures '\n' !in "expires_at:" + Text.Integer(n)
  {
  }

  // ---- the whole message ----

  function Pair(m: Message): LinkLocals {
    if m.Delete? then None else m.ll
  }

  function WithPair(m: Message, ll: LinkLocals): Message {
    match m
    case Create(a, n, p, e, _, mtu, nonce, x) => Create(a, n, p, e, ll, mtu, nonce, x)
    case Update(a, n, p, e, _, mtu, nonce, x) => Update(a, n, p, e, ll, mtu, nonce, x)
    case Delete(_, _, _, _) => m
  }

  /** The same operation with the same fields, except that only the text of the link-local field agrees. */
  predicate SameButLinkLocal(m: Message, k: Message) {
    k == WithPair(m, Pair(k)) && LinkLocal.FieldText(Pair(k)) == LinkLocal.FieldText(Pair(m))
  }

  lemma HeaderDetermines(m: Message, k: Message)
    requires Valid(m) && Valid(k) && MessageText(m) == MessageText(k) && |Header(m)| <= |Header(k)|
    ensures Header(m) == Header(k) && Ending(m) == Ending(k)
  {
    HeaderUnbroken(m);
    HeaderUnbroken(k);
    SameLines(Header(m), Ending(m), Header(k), Ending(k));
    FirstFour(m, k);
    assert |Header(m)| == |Header(k)|;
    assert Header(k)[..|Header(m)|] == Header(k) && Header(k)[|Header(m)|..] == [];
  }

  lemma OperationDetermines(m: Message, k: Message)
    requires Operation(m) == Operation(k)
    ensures m.Create? == k.Create? && m.Update? == k.Update?
  {
    assert Operation(m)[0] == Operation(k)[0];
  }

  lemma FirstFour(m: Message, k: Message)
    requires |Header(m)| <= |Header(k)| && Header(m) == Header(k)[..|Header(m)|]
    ensures m.asn == k.asn && m.name == k.name && m.Create? == k.Create? && m.Update? == k.Update?
  {
    var a := FirstLines(Operation(m), Text.Decimal(m.asn), m.name);
    var b := FirstLines(Operation(k), Text.Decimal(k.asn), k.name);
    assert Header(m)[..4] == a && Header(k)[..4] == b;
    assert Header(k)[..|Header(m)|][..4] == Header(k)[..4];
    FirstLinesDetermine(Operation(m), Text.Decimal(m.asn), m.name, Operation(k), Text.Decimal(k.asn), k.name);
    OperationDetermines(m, k);
  }

  lemma BodyDetermines(m: Message, k: Message)
    requires Valid(m) && Valid(k) && Body(m) == Body(k) && m.Create? == k.Create? && m.Update? == k.Update?
    requires m.asn == k.asn && m.name == k.name && m.nonce == k.nonce && m.expires == k.expires
    ensures SameButLinkLocal(m, k)
  {
    if m.Create? {
      FieldLinesDetermine(m.pubkey, EndpointText(m.endpoint), LinkLocal.FieldText(m.ll), MtuText(m.mtu),
                          k.pubkey, EndpointText(k.endpoint), LinkLocal.FieldText(k.ll), MtuText(k.mtu));
      EndpointDetermines(m.endpoint, k.endpoint);
      MtuDetermines(m.mtu, k.mtu);
    } else if m.Update? {
      FieldLinesDetermine(m.pubkey, NewEndpointText(m.newEndpoint), LinkLocal.FieldText(m.ll), NewMtuText(m.newMtu),
                          k.pubkey, NewEndpointText(k.newEndpoint), LinkLocal.FieldText(k.ll), NewMtuText(k.newMtu));
      NewEndpointDetermines(m.newEndpoint, k.newEndpoint);
      NewMtuDetermines(m.newMtu, k.newMtu);
    }
  }

  /** Equal texts: the same operation, ASN, name, key, endpoint action, MTU action, nonce and expiry, for
      arbitrary nonces, and link-local fields with the same text. */
  lemma TextDetermines(m: Message, k: Message)
    requires Valid(m) && Valid(k)
    ensures MessageText(m) == MessageText(k) <==> SameButLinkLocal(m, k)
  {
    if MessageText(m) == MessageText(k) {
      if |Header(m)| <= |Header(k)| {
        HeaderDetermines(m, k);
      } else {
        HeaderDetermines(k, m);
      }
      EndingDetermines(m, k);
      FirstFour(m, k);
      assert Body(m) == Header(m)[4..] == Header(k)[4..] == Body(k);
      BodyDetermines(m, k);
    }
  }

  /** A text is signed for one request only, unless it carries a pair that divides in another way. */
  lemma MessageAmbiguity(m: Message)
    requires Valid(m)
    ensures (exists k :: Valid(k) && k != m && MessageText(k) == MessageText(m))
       <==> (!m.Delete? && m.ll.Some? && LinkLocal.Resplits(m.ll.value.0, m.ll.value.1))
  {
    if !m.Delete? && m.ll.Some? && LinkLocal.Resplits(m.ll.value.0, m.ll.value.1) {
      var l, r := m.ll.value.0, m.ll.value.1;
      LinkLocal.FieldAmbiguity(l, r);
      var l', r' :| LinkLocal.Alike(l, r, l', r') && (l', r') != (l, r);
      var k := WithPair(m, Some((l', r')));
      TextDetermines(k, m);
      assert Valid(k) && k != m && MessageText(k) == MessageText(m);
    }
    if k :| Valid(k) && k != m && MessageText(k) == MessageText(m) {
      TextDetermines(k, m);
      PairsDiffer(k, m);
    }
  }

  lemma PairsDiffer(k: Message, m: Message)
    requires Valid(k) && Valid(m) && SameButLinkLocal(k, m) && k != m
    ensures !m.Delete? && m.ll.Some? && LinkLocal.Resplits(m.ll.value.0, m.ll.value.1)
  {
    assert k.ll != m.ll;
    if m.ll.None? {
      LinkLocal.AutoIsNoPair(k.ll.value.0, k.ll.value.1);
    } else if k.ll.None? {
      LinkLocal.AutoIsNoPair(m.ll.value.0, m.ll.value.1);
    } else {
      assert LinkLocal.Alike(m.ll.value.0, m.ll.value.1, k.ll.value.0, k.ll.value.1);
      LinkLocal.FieldAmbiguity(m.ll.value.0, m.ll.value.1);
    }
  }

  predicate InPrefix(m: Message) {
    !m.Delete? && m.ll.Some? ==>
      LinkLocal.InLinkLocalPrefix(m.ll.value.0) && LinkLocal.InLinkLocalPrefix(m.ll.value.1)
  }

  /** With link-local addresses from fe80::/64 the text is the request. */
  lemma MessageInjective(m: Message, k: Message)
    requires Valid(m) && Valid(k) && InPrefix(m) && InPrefix(k) && MessageText(m) == MessageText(k)
    ensures m == k
  {
    TextDetermines(m, k);
    if !m.Delete? {
      if m.ll.Some? && k.ll.Some? {
        LinkLocal.PrefixPairDetermined(m.ll.value.0, m.ll.value.1, k.ll.value.0, k.ll.value.1);
      } else if m.ll.Some? {
        LinkLocal.AutoIsNoPair(m.ll.value.0, m.ll.value.1);
      } else if k.ll.Some? {
        LinkLocal.AutoIsNoPair(k.ll.value.0, k.ll.value.1);
      }
    }
  }
}
