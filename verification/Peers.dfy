/** Peer rows, their statuses, and what is derived from a row without touching the outside world. */
module Peers {
  datatype Option<+T> = None | Some(value: T)

  /** Eight 16-bit groups, most significant first. */
  type Ipv6 = seq<nat>

  predicate IsAddress(a: Ipv6) {
    |a| == 8 && forall i :: 0 <= i < 8 ==> a[i] < 0x1_0000
  }

  const U32: nat := 0x1_0000_0000

  datatype Status = Provisioning | Active | Deleting | Disabled | Error(detail: string)

  datatype Key = Key(asn: nat, name: string)

  /** `iface` is the number N of the stored interface name `wgp<N>`; Text.IfaceName shows that
      distinct numbers are distinct names. */
  datatype Peer = Peer(
    id: nat, name: string, iface: nat, asn: nat, pubkey: string, endpoint: Option<string>,
    localLl: Ipv6, remoteLl: Ipv6, status: Status, port: nat, mtu: nat)

  function KeyOf(p: Peer): Key {
    Key(p.asn, p.name)
  }

  /** A row that must be configured: neither being deleted nor administratively down. */
  predicate Wanted(p: Peer) {
    p.status != Deleting && p.status != Disabled
  }

  /** A row on which the reconciler has no status left to write. */
  predicate Resting(p: Peer) {
    p.status == Active || p.status == Disabled
  }

  function StatusText(s: Status): string {
    match s
    case Provisioning => "provisioning"
    case Active => "active"
    case Deleting => "deleting"
    case Disabled => "disabled"
    case Error(_) => "error"
  }

  function TextStatus(t: string): Status {
    if t == "provisioning" then Provisioning
    else if t == "active" then Active
    else if t == "deleting" then Deleting
    else if t == "disabled" then Disabled
    else Error("unknown database status: " + t)
  }

  /** Storing a status and reading it back keeps what the protocol decides on, for every status;
      only the detail of an error status is lost. */
  lemma StatusRoundTrip(s: Status)
    ensures !s.Error? ==> TextStatus(StatusText(s)) == s
    ensures s.Error? <==> TextStatus(StatusText(s)).Error?
  {
    assert "error"[0] != "provisioning"[0] && "error"[0] != "active"[0] && "error"[0] != "deleting"[0];
    assert |"active"| != |"provisioning"|;
    assert "deleting"[1] != "disabled"[1];
  }

  /** The texts other writers use in the status column. */
  lemma StatusColumn()
    ensures TextStatus("provisioning") == Provisioning && TextStatus("active") == Active
    ensures TextStatus("deleting") == Deleting && TextStatus("disabled") == Disabled
    ensures forall t :: TextStatus(t).Error? <==> t !in {"provisioning", "active", "deleting", "disabled"}
  {
    assert "active" != "provisioning" && "deleting" != "disabled" by {
      assert |"active"| != |"provisioning"| && "deleting"[1] != "disabled"[1];
    }
  }

  /** fe80::, with the AS number in the last 32 bits. */
  predicate IsAsnAddress(a: Ipv6, asn: nat) {
    && IsAddress(a) && a[0] == 0xfe80 && a[1] == a[2] == a[3] == a[4] == a[5] == 0
    && a[6] * 0x1_0000 + a[7] == asn
  }

  /** The automatic link-local address of an autonomous system. */
  function AsnLinkLocal(asn: nat): (a: Ipv6)
    requires asn < U32
    ensures IsAsnAddress(a, asn)
  {
    [0xfe80, 0, 0, 0, 0, 0, asn / 0x1_0000, asn % 0x1_0000]
  }

  lemma AsnLinkLocalInjective(a: nat, b: nat)
    requires a < U32 && b < U32
    requires AsnLinkLocal(a) == AsnLinkLocal(b)
    ensures a == b
  {
    assert AsnLinkLocal(a)[6] == AsnLinkLocal(b)[6] && AsnLinkLocal(a)[7] == AsnLinkLocal(b)[7];
  }

  /** What the BIRD template is rendered from. The rendered text is a function of this record. */
  datatype Fragment = Fragment(
    peerId: nat, name: string, asn: nat, localAsn: nat, iface: nat, localLl: Ipv6, remoteLl: Ipv6)

  /** The files of a generation directory: `wgp<N>.conf` under N. */
  type Generation = map<nat, Fragment>

  function FragmentOf(localAsn: nat, p: Peer): Fragment {
    Fragment(p.id, p.name, p.asn, localAsn, p.iface, p.localLl, p.remoteLl)
  }

  /** One fragment per wanted row, and nothing else. */
  function DesiredGeneration(localAsn: nat, rows: map<nat, Peer>): Generation {
    map n | n in rows && Wanted(rows[n]) :: FragmentOf(localAsn, rows[n])
  }

  /** What a BIRD file for row p has to say, field by field. */
  predicate Describes(f: Fragment, localAsn: nat, p: Peer) {
    && f.peerId == p.id && f.name == p.name && f.asn == p.asn && f.localAsn == localAsn && f.iface == p.iface
    && f.localLl == p.localLl && f.remoteLl == p.remoteLl
  }

  /** One file for every row that is neither being deleted nor disabled, and no other. */
  ghost predicate ShowsRows(g: Generation, localAsn: nat, rows: map<nat, Peer>) {
    && (forall n :: n in g <==> n in rows && rows[n].status != Deleting && rows[n].status != Disabled)
    && (forall n :: n in g ==> Describes(g[n], localAsn, rows[n]))
  }

  lemma DesiredShowsRows(localAsn: nat, rows: map<nat, Peer>)
    ensures ShowsRows(DesiredGeneration(localAsn, rows), localAsn, rows)
  {
  }

  /** The ports of the same rows. */
  ghost predicate OpensPorts(ports: set<nat>, rows: map<nat, Peer>) {
    forall port :: port in ports <==>
      exists n :: n in rows && rows[n].port == port && rows[n].status != Deleting && rows[n].status != Disabled
  }

  lemma DesiredOpensPorts(rows: map<nat, Peer>)
    ensures OpensPorts(DesiredPorts(rows), rows)
  {
  }

  function DesiredPorts(rows: map<nat, Peer>): set<nat> {
    set n | n in rows && Wanted(rows[n]) :: rows[n].port
  }

  // Requests after validation.

  datatype Request = Request(
    key: Key, pubkey: string, endpoint: Option<string>, linkLocal: Option<(Ipv6, Ipv6)>, mtu: Option<nat>)

  datatype Change = Change(
    key: Key, pubkey: string, endpoint: Option<Option<string>>, linkLocal: Option<(Ipv6, Ipv6)>,
    mtu: Option<Option<nat>>)

  const DEFAULT_MTU: nat := 1420

  function LinkLocals(localAsn: nat, asn: nat, chosen: Option<(Ipv6, Ipv6)>): (Ipv6, Ipv6)
    requires localAsn < U32 && asn < U32
  {
    match chosen
    case Some(pair) => pair
    case None => (AsnLinkLocal(localAsn), AsnLinkLocal(asn))
  }

  /** The row a create request reserves. */
  function NewPeer(localAsn: nat, id: nat, r: Request, port: nat): Peer
    requires localAsn < U32 && r.key.asn < U32
  {
    var ll := LinkLocals(localAsn, r.key.asn, r.linkLocal);
    Peer(id, r.key.name, id, r.key.asn, r.pubkey, r.endpoint, ll.0, ll.1, Provisioning, port,
         if r.mtu.Some? then r.mtu.value else DEFAULT_MTU)
  }

  /** The row an update request asks for. Identity, interface and port come from the old row. */
  function ChangedPeer(localAsn: nat, prior: Peer, c: Change): Peer
    requires localAsn < U32 && c.key.asn < U32
  {
    var ll := LinkLocals(localAsn, c.key.asn, c.linkLocal);
    prior.(pubkey := c.pubkey,
         endpoint := if c.endpoint.Some? then c.endpoint.value else prior.endpoint,
         localLl := ll.0,
         remoteLl := ll.1,
         mtu := match c.mtu
                case None => prior.mtu
                case Some(None) => DEFAULT_MTU
                case Some(Some(m)) => m,
         status := Provisioning)
  }

  // What requests ask for, field by field.

  /** The pair that was chosen, or the automatic one. */
  predicate HasLinkLocals(p: Peer, localAsn: nat, chosen: Option<(Ipv6, Ipv6)>) {
    if chosen.Some? then p.localLl == chosen.value.0 && p.remoteLl == chosen.value.1
    else IsAsnAddress(p.localLl, localAsn) && IsAsnAddress(p.remoteLl, p.asn)
  }

  predicate AsRequested(p: Peer, localAsn: nat, r: Request) {
    && p.asn == r.key.asn && p.name == r.key.name && p.iface == p.id
    && p.pubkey == r.pubkey && p.endpoint == r.endpoint
    && p.mtu == (if r.mtu.Some? then r.mtu.value else 1420)
    && HasLinkLocals(p, localAsn, r.linkLocal)
  }

  predicate AsChanged(p: Peer, localAsn: nat, prior: Peer, c: Change) {
    && p.id == prior.id && p.name == prior.name && p.asn == prior.asn && p.iface == prior.iface && p.port == prior.port
    && p.pubkey == c.pubkey
    && (c.endpoint == None ==> p.endpoint == prior.endpoint)
    && (c.endpoint.Some? ==> p.endpoint == c.endpoint.value)
    && (c.mtu == None ==> p.mtu == prior.mtu)
    && (c.mtu == Some(None) ==> p.mtu == 1420)
    && (c.mtu.Some? && c.mtu.value.Some? ==> p.mtu == c.mtu.value.value)
    && HasLinkLocals(p, localAsn, c.linkLocal)
  }

  lemma NewAsRequested(localAsn: nat, id: nat, r: Request, port: nat)
    requires localAsn < U32 && r.key.asn < U32
    ensures var p := NewPeer(localAsn, id, r, port);
            AsRequested(p, localAsn, r) && p.id == id && p.port == port && p.status == Provisioning
  {
  }

  lemma ChangedAsChanged(localAsn: nat, prior: Peer, c: Change)
    requires localAsn < U32 && c.key.asn < U32 && prior.asn == c.key.asn
    ensures AsChanged(ChangedPeer(localAsn, prior, c), localAsn, prior, c)
  {
  }
}
