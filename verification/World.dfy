/** Everything the service shares: the database tables, the kernel interfaces, the BIRD
    generation that `current` points to, and the nftables set. */
module World {
  import opened Peers

  datatype Operation = Insert | Update | Delete

  /** A row of `peer_change_events`: the trigger's copy of the written row. */
  datatype Event = Event(op: Operation, peer: Peer)

  datatype WgConf = WgConf(port: nat, pubkey: string)

  /** A kernel interface. A link that was only added has none of the later settings. */
  datatype Iface = Iface(alias: Option<nat>, mtu: Option<nat>, wg: Option<WgConf>, addrs: set<Ipv6>)

  const BARE_LINK := Iface(None, None, None, {})

  datatype World = World(
    localAsn: nat,
    rows: map<nat, Peer>,
    outbox: map<nat, Event>,
    nextEvent: nat,
    nextId: nat,
    keys: map<nat, Key>,          // the (ASN, name) each issued id was taken for; history only
    used: set<nat>,               // the ids that some row has had; history only
    ifaces: map<nat, Iface>,      // wgp<N> under N
    otherPorts: set<nat>,         // listen ports of WireGuard devices that are not the service's
    current: Option<Generation>,
    ports: set<nat>)

  /** How one call ends. FailAfter is an error reported although the effect took place, as after
      a lost database reply or a failed directory flush. */
  datatype Outcome = Succeed | Fail | FailAfter

  // ---- the table ----

  predicate NameTaken(w: World, key: Key) {
    exists n :: n in w.rows && KeyOf(w.rows[n]) == key
  }

  predicate PortTaken(w: World, port: nat, except: nat) {
    exists n :: n in w.rows && n != except && w.rows[n].port == port
  }

  /** A primary-key or unique-constraint conflict for an inserted row. */
  predicate Conflict(w: World, p: Peer) {
    p.id in w.rows || NameTaken(w, KeyOf(p)) || PortTaken(w, p.port, p.id)
  }

  ghost function FindByKey(w: World, key: Key): (r: Option<Peer>)
    ensures r.Some? <==> NameTaken(w, key)
    ensures r.Some? ==> exists n :: n in w.rows && w.rows[n] == r.value && KeyOf(r.value) == key
  {
    if NameTaken(w, key) then
      var n :| n in w.rows && KeyOf(w.rows[n]) == key;
      Some(w.rows[n])
    else None
  }

  /** Some WireGuard device already listens on the port. */
  predicate PortInUse(w: World, port: nat) {
    || port in w.otherPorts
    || exists i :: i in w.ifaces && w.ifaces[i].wg.Some? && w.ifaces[i].wg.value.port == port
  }

  /** What `update_peer_desired` leaves in the row: every mutable column, status provisioning. */
  function Stored(row: Peer, p: Peer): Peer {
    p.(id := row.id, asn := row.asn, name := row.name, status := Provisioning)
  }

  // ---- atomic effects ----

  datatype Eff =
    | Skip
    | SetRow(op: Operation, p: Peer)
    | EraseRow(id: nat)
    | Issue(key: Key)
    | SetIface(name: nat, i: Iface)
    | DropIface(name: nat)
    | SetCurrent(g: Option<Generation>)
    | SetPorts(ports: set<nat>)
    | DropEvent(e: nat)
    | SetDevices(others: set<nat>)

  /** The trigger: a row write and its event are one transaction. */
  function Emit(w: World, op: Operation, p: Peer): World {
    w.(outbox := w.outbox[w.nextEvent := Event(op, p)], nextEvent := w.nextEvent + 1)
  }

  function Apply(w: World, eff: Eff): World {
    match eff
    case Skip => w
    case SetRow(op, p) => Emit(w.(rows := w.rows[p.id := p], used := w.used + {p.id}), op, p)
    case EraseRow(id) => if id in w.rows then Emit(w.(rows := w.rows - {id}), Delete, w.rows[id]) else w
    case Issue(key) => w.(keys := w.keys[w.nextId := key], nextId := w.nextId + 1)
    case SetIface(name, i) => w.(ifaces := w.ifaces[name := i])
    case DropIface(name) => w.(ifaces := w.ifaces - {name})
    case SetCurrent(g) => w.(current := g)
    case SetPorts(ps) => w.(ports := ps)
    case DropEvent(e) => w.(outbox := w.outbox - {e})
    case SetDevices(others) => w.(otherPorts := others)
  }

  // ---- what convergence means ----

  /** Key, port and MTU are the row's and the row's local address is present. Addresses are only
      ever added, so an earlier address may remain. */
  predicate Configured(i: Iface, p: Peer) {
    && i.alias == Some(p.id)
    && i.mtu == Some(p.mtu)
    && i.wg == Some(WgConf(p.port, p.pubkey))
    && p.localLl in i.addrs
  }

  /** Interface wgpN is what row N asks for: configured if the row is wanted, absent otherwise. */
  predicate IfaceMatches(w: World, n: nat) {
    if n in w.rows && Wanted(w.rows[n])
    then n in w.ifaces && Configured(w.ifaces[n], w.rows[n])
    else n !in w.ifaces
  }

  predicate Settled(w: World, n: nat) {
    (n in w.rows ==> Resting(w.rows[n])) && IfaceMatches(w, n)
  }

  predicate BirdSettled(w: World) {
    w.current == Some(DesiredGeneration(w.localAsn, w.rows))
  }

  /** The primary key and the immutability of identity columns. */
  ghost predicate Ident(w: World) {
    && w.localAsn < U32
    && (forall n :: n in w.rows ==>
          n in w.used && n in w.keys && w.rows[n].id == n && KeyOf(w.rows[n]) == w.keys[n] && w.rows[n].iface == n)
    && (forall e :: e in w.outbox ==> e < w.nextEvent && EventOk(w, w.outbox[e]))
    && (forall n :: n in w.keys ==> n < w.nextId)
    && (forall n :: n in w.ifaces ==> n in w.used)
    && (forall n :: n in w.used ==> n in w.keys)
  }

  /** UNIQUE (asn, peer_name) and UNIQUE (listen_port). */
  ghost predicate Unique(w: World) {
    forall m, n :: m in w.rows && n in w.rows && m != n ==>
      KeyOf(w.rows[m]) != KeyOf(w.rows[n]) && w.rows[m].port != w.rows[n].port
  }

  predicate EventOk(w: World, v: Event) {
    v.peer.id in w.used && v.peer.id in w.keys && KeyOf(v.peer) == w.keys[v.peer.id] && v.peer.iface == v.peer.id
  }
}
