/** The operations of the peer manager, run one at a time. Every external call and every database
    statement may fail, with or without having taken effect. */
module Manager {
  import opened Peers
  import opened World
  import Machine
  import opened Ports
  import Invariant
  import Repair

  // ---- what single calls may change ----

  predicate OnlyIface(w: World, w': World, n: nat) {
    w' == w.(ifaces := w'.ifaces) && w'.ifaces - {n} == w.ifaces - {n}
  }

  predicate OnlyCurrent(w: World, w': World) {
    w' == w.(current := w'.current)
  }

  predicate OnlyPorts(w: World, w': World) {
    w' == w.(ports := w'.ports)
  }

  /** Rows, events and port set as before; other interfaces as before. */
  predicate OnlyExternal(w: World, w': World, n: nat) {
    w' == w.(ifaces := w'.ifaces, current := w'.current) && w'.ifaces - {n} == w.ifaces - {n}
  }

  function AsksFor(w: World): Option<Generation> {
    Some(DesiredGeneration(w.localAsn, w.rows))
  }

  /** BIRD and nftables show what the table asks for. */
  predicate Shows(w: World) {
    w.current == AsksFor(w) && w.ports == DesiredPorts(w.rows)
  }

  /** The consistency the database enforces. */
  ghost predicate Good(w: World) {
    Ident(w) && Unique(w)
  }

  /** The peer's id was issued for it. */
  predicate NamedPeer(w: World, p: Peer) {
    p.id in w.keys && KeyOf(p) == w.keys[p.id] && p.iface == p.id
  }

  /** The peer has, or had, a row. */
  predicate KnownPeer(w: World, p: Peer) {
    p.id in w.used && NamedPeer(w, p)
  }

  lemma KnownIface(w: World, w': World, n: nat)
    requires Ident(w) && OnlyIface(w, w', n) && n in w.used
    ensures Ident(w')
  {
    forall m | m in w'.ifaces ensures m in w'.used {
      assert m == n || m in w'.ifaces - {n};
    }
  }

  lemma InsertGood(w: World, p: Peer)
    requires Good(w) && NamedPeer(w, p) && !Conflict(w, p)
    ensures Good(Apply(w, SetRow(Insert, p)))
  {
  }

  lemma StatusGood(w: World, id: nat, status: Status)
    requires Good(w)
    ensures Good(Apply(w, Machine.StatusWrite(w, id, status, Succeed)))
  {
  }

  lemma EraseGood(w: World, id: nat)
    requires Good(w)
    ensures Good(Apply(w, Machine.EraseWrite(w, id, Succeed)))
  {
  }

  lemma StoreGood(w: World, p: Peer)
    requires Good(w) && KnownPeer(w, p) && p.id in w.rows && !PortTaken(w, p.port, p.id)
    ensures Good(Apply(w, SetRow(Update, Stored(w.rows[p.id], p))))
  {
  }

  /** Everything about other peers is as before; the sequences only grow. */
  predicate OnlyPeer(w: World, w': World, n: nat) {
    && w'.rows - {n} == w.rows - {n} && w'.ifaces - {n} == w.ifaces - {n}
    && w'.localAsn == w.localAsn && w'.keys == w.keys && w'.nextId == w.nextId
    && w.used <= w'.used <= w.used + {n}
    && w'.nextEvent >= w.nextEvent
    && (forall e :: e in w.outbox ==> e in w'.outbox && w'.outbox[e] == w.outbox[e])
    && (forall e :: e in w'.outbox && e !in w.outbox ==> w.nextEvent <= e < w'.nextEvent && w'.outbox[e].peer.id == n)
  }

  lemma OnlyPeerChain(w: World, w1: World, w2: World, n: nat)
    requires OnlyPeer(w, w1, n) && OnlyPeer(w1, w2, n)
    ensures OnlyPeer(w, w2, n)
  {
  }

  lemma ExternalOnlyPeer(w: World, w': World, n: nat)
    requires OnlyExternal(w, w', n) || OnlyPorts(w, w')
    ensures OnlyPeer(w, w', n)
  {
  }

  lemma WriteOnlyPeer(w: World, eff: Eff, n: nat)
    requires Good(w) && (eff.Skip? || (eff.SetRow? && eff.p.id == n) || (eff.EraseRow? && eff.id == n))
    ensures OnlyPeer(w, Apply(w, eff), n)
  {
  }

  lemma NothingLeft(w: World, w': World, n: nat)
    requires OnlyPeer(w, w', n) && n !in w.ifaces && n !in w'.ifaces
    ensures w'.ifaces == w.ifaces
  {
    assert w.ifaces == w.ifaces - {n} && w'.ifaces == w'.ifaces - {n};
  }

  /** A row that is not wanted before or after does not show. */
  lemma HiddenRow(localAsn: nat, rows: map<nat, Peer>, later: map<nat, Peer>, n: nat)
    requires rows - {n} == later - {n}
    requires n in rows ==> !Wanted(rows[n])
    requires n in later ==> !Wanted(later[n])
    ensures DesiredGeneration(localAsn, later) == DesiredGeneration(localAsn, rows)
    ensures DesiredPorts(later) == DesiredPorts(rows)
  {
    assert forall m :: m != n && m in rows ==> m in rows - {n} && (rows - {n})[m] == rows[m];
    assert forall m :: m != n && m in later ==> m in later - {n} && (later - {n})[m] == later[m];
    forall p ensures p in DesiredPorts(rows) <==> p in DesiredPorts(later) {
    }
  }

  lemma OwnPort(w: World, n: nat)
    requires Unique(w) && n in w.rows
    ensures !PortTaken(w, w.rows[n].port, n)
  {
  }

  /** A row that is gone leaves neither a fragment nor an open port. */
  lemma NothingShown(w: World, later: map<nat, Peer>, p: Peer)
    requires Unique(w) && p.id in w.rows && w.rows[p.id].port == p.port && later == w.rows - {p.id}
    ensures p.port !in DesiredPorts(later) && p.id !in DesiredGeneration(w.localAsn, later)
  {
  }

  /** The BIRD configuration shows an active peer. */
  lemma FragmentShown(localAsn: nat, rows: map<nat, Peer>, p: Peer)
    requires p.id in rows && rows[p.id] == p.(status := Active)
    ensures p.id in DesiredGeneration(localAsn, rows)
    ensures DesiredGeneration(localAsn, rows)[p.id] == FragmentOf(localAsn, p)
  {
  }

  /** What a complete way back of an update amounts to. */
  lemma Restored(w: World, w1: World, w': World, p: Peer)
    requires p.id in w.rows && w1.rows == w.rows[p.id := p.(status := Provisioning)]
    requires w'.rows == w1.rows[p.id := w1.rows[p.id].(status := Active)] && w'.current == w1.current == AsksFor(w')
    ensures w'.rows == w.rows[p.id := p.(status := Active)]
    ensures p.id in w'.current.value && w'.current.value[p.id] == FragmentOf(w'.localAsn, p)
  {
    FragmentShown(w'.localAsn, w'.rows, p);
  }

  /** Taking an id changes nothing a reservation looks at. */
  lemma IdTaken(w: World, r: Request, port: nat)
    ensures var issued := Apply(w, Issue(r.key));
            Busy(issued, port) == Busy(w, port)
  {
  }

  lemma IdsTaken(w: World, r: Request)
    ensures forall port :: Busy(Apply(w, Issue(r.key)), port) == Busy(w, port)
  {
    forall port ensures Busy(Apply(w, Issue(r.key)), port) == Busy(w, port) {
      IdTaken(w, r, port);
    }
  }

  lemma IssueGood(w: World, r: Request)
    requires Good(w)
    ensures Good(Apply(w, Issue(r.key))) && w.nextId !in w.rows
  {
  }

  lemma Exhausted(w: World, r: Request, tried: seq<nat>)
    requires Good(w) && r.key.asn < U32 && |tried| == PORT_COUNT
    requires forall i :: 0 <= i < PORT_COUNT ==> tried[i] == Machine.CandidatePort(r.key.asn, i) && Busy(w, tried[i])
    ensures forall port :: 20_000 <= port < 30_000 ==> Busy(w, port)
  {
    assert forall j: nat :: j < PORT_COUNT ==> tried[j] == Machine.CandidatePort(r.key.asn, j);
    AllCandidatesBusy(w, r.key.asn);
  }

  /** Activating a wanted row does not show either. */
  lemma ActivatedRow(localAsn: nat, rows: map<nat, Peer>, n: nat)
    requires n in rows && Wanted(rows[n])
    ensures var later := rows[n := rows[n].(status := Active)];
            DesiredGeneration(localAsn, later) == DesiredGeneration(localAsn, rows)
                      && DesiredPorts(later) == DesiredPorts(rows)
  {
    var later := rows[n := rows[n].(status := Active)];
    assert forall m :: m in rows <==> m in later;
    assert forall m :: m in rows ==> Wanted(later[m]) == Wanted(rows[m]) && later[m].port == rows[m].port;
    forall p ensures p in DesiredPorts(rows) <==> p in DesiredPorts(later) {
      if p in DesiredPorts(rows) {
        var m :| m in rows && Wanted(rows[m]) && rows[m].port == p;
        assert m in later && Wanted(later[m]) && later[m].port == p;
      }
      if p in DesiredPorts(later) {
        var m :| m in later && Wanted(later[m]) && later[m].port == p;
        assert m in rows && Wanted(rows[m]) && rows[m].port == p;
      }
    }
  }

  /** How a request ends. */
  datatype Answer = Done(peer: Peer) | AlreadyExists | NotFound | Refused

  /** After a reservation the new row is the only difference that shows. */
  lemma ReservedRow(w: World, r: Request, port: nat)
    requires Good(w) && r.key.asn < U32
    ensures var p := NewPeer(w.localAsn, w.nextId, r, port);
            var w' := Apply(Apply(w, Issue(r.key)), SetRow(Insert, p));
            && KnownPeer(w', p) && w'.rows == w.rows[p.id := p] && p.id !in w.rows && p.id !in w.ifaces
            && w'.ifaces == w.ifaces && w'.localAsn == w.localAsn
  {
  }

  /** Rows and interfaces of other peers are as before. */
  predicate SpareOthers(w: World, w': World, n: nat) {
    w'.rows - {n} == w.rows - {n} && w'.ifaces - {n} == w.ifaces - {n}
  }

  /** The row was inserted, and nothing else happened. */
  predicate LostInsert(w: World, w': World, r: Request, port: nat) {
    && w.localAsn < U32 && r.key.asn < U32
    && w' == Apply(Apply(w, Issue(r.key)), SetRow(Insert, NewPeer(w.localAsn, w.nextId, r, port)))
  }

  lemma InsertSpares(w: World, w': World, r: Request, p: Peer)
    requires w' == Apply(Apply(w, Issue(r.key)), SetRow(Insert, p)) && p.id == w.nextId
    ensures SpareOthers(w, w', w.nextId)
  {
  }

  /** At most the peer of this name was touched. */
  ghost predicate OnlyNamed(w: World, w': World, key: Key) {
    w' == w || exists n :: n in w.rows && KeyOf(w.rows[n]) == key && OnlyPeer(w, w', n)
  }

  /** The peer is new, and everywhere; nothing else was touched. */
  predicate Added(w: World, w': World, p: Peer) {
    && p.id !in w.rows && w'.rows == w.rows[p.id := p] && w'.ifaces - {p.id} == w.ifaces - {p.id}
    && p.id in w'.ifaces && Configured(w'.ifaces[p.id], p)
    && w'.current == AsksFor(w') && w'.ports == DesiredPorts(w'.rows)
  }

  lemma AddedAfter(w: World, reserved: World, w': World, r: Request, p: Peer)
    requires Good(w) && reserved == Apply(Apply(w, Issue(r.key)), SetRow(Insert, p)) && p.id == w.nextId
    requires w'.rows == reserved.rows[p.id := p.(status := Active)] && OnlyPeer(reserved, w', p.id)
    requires p.id in w'.ifaces && Configured(w'.ifaces[p.id], p)
    requires w'.current == AsksFor(w') && w'.ports == DesiredPorts(w'.rows)
    ensures Added(w, w', p.(status := Active)) && w'.localAsn == w.localAsn
  {
  }

  lemma ReservedSpares(w: World, reserved: World, w': World, r: Request, p: Peer)
    requires reserved == Apply(Apply(w, Issue(r.key)), SetRow(Insert, p)) && OnlyPeer(reserved, w', p.id)
    ensures SpareOthers(w, w', p.id)
  {
  }

  lemma ReservedTaken(w: World, reserved: World, r: Request, p: Peer)
    requires reserved == Apply(Apply(w, Issue(r.key)), SetRow(Insert, p)) && p.id !in w.rows
    ensures reserved.rows - {p.id} == w.rows && reserved.ifaces == w.ifaces
  {
  }

  /** Only the table and its events changed. */
  predicate OutsideSame(w: World, w': World) {
    w'.ifaces == w.ifaces && w'.current == w.current && w'.ports == w.ports
  }

  /** The new row is stored, and nothing outside the table knows of it. */
  predicate StoredOnly(w: World, w': World, p: Peer) {
    w'.rows == w.rows[p.id := p] && OutsideSame(w, w')
  }

  /** The new configuration is in place; its row may or may not be active already. */
  predicate AllButStatus(w: World, w': World, p: Peer) {
    && (w'.rows == w.rows[p.id := p] || w'.rows == w.rows[p.id := p.(status := Active)])
    && p.id in w'.ifaces && Configured(w'.ifaces[p.id], p) && w'.current == AsksFor(w')
  }

  /** A deletion was taken back: the row is active, and it is configured unless nothing was removed. */
  predicate TakenBack(w: World, w': World, n: nat) {
    && n in w.rows && w'.rows == w.rows[n := w.rows[n].(status := Active)]
    && ((w'.ifaces == w.ifaces && w'.current == w.current)
        || (n in w'.ifaces && Configured(w'.ifaces[n], w.rows[n]) && w'.current == AsksFor(w')
            && w'.ports == DesiredPorts(w'.rows)))
  }

  /** A deletion has done everything but erase the row, or all of it without learning so. */
  predicate AllButErased(w: World, w': World, n: nat) {
    && n in w.rows && n !in w'.ifaces && w'.current == AsksFor(w') && w'.ports == DesiredPorts(w'.rows)
    && (w'.rows == w.rows[n := w.rows[n].(status := Deleting)] || w'.rows == w.rows - {n})
  }

  /** The row is marked, and nothing outside the table knows of it. */
  predicate MarkedOnly(w: World, w': World, n: nat) {
    n in w.rows && w'.rows == w.rows[n := w.rows[n].(status := Deleting)] && OutsideSame(w, w')
  }

  /** What a refused deletion of peer n leaves when a single call failed. */
  predicate RefusedDelete(w: World, w': World, n: nat) {
    MarkedOnly(w, w', n) || TakenBack(w, w', n) || AllButErased(w, w', n)
  }

  /** The same, for the peer of this name. */
  predicate RefusedDeleteOf(w: World, w': World, key: Key) {
    exists n :: n in w.rows && KeyOf(w.rows[n]) == key && RefusedDelete(w, w', n)
  }

  /** A deletion that was taken back leaves the table as it was exactly if the row was active. */
  lemma TakenBackExactly(w: World, w': World, n: nat)
    requires TakenBack(w, w', n)
    ensures w'.rows == w.rows <==> w.rows[n].status == Active
  {
    assert w'.rows[n].status == Active;
    if w.rows[n].status == Active { assert w.rows[n].(status := Active) == w.rows[n]; }
  }

  /** A refused deletion leaves the table as it was only by taking itself back from an active row, or if
      the row was being deleted already. */
  lemma RefusedDeleteExactly(w: World, w': World, n: nat)
    requires RefusedDelete(w, w', n)
    ensures w'.rows == w.rows <==>
            (w.rows[n].status == Active && TakenBack(w, w', n))
            || (w.rows[n].status == Deleting && n in w'.rows && w'.rows[n].status == Deleting)
  {
    if TakenBack(w, w', n) { TakenBackExactly(w, w', n); }
    if n in w'.rows && w.rows[n].status == w'.rows[n].status {
      assert w.rows[n].(status := w'.rows[n].status) == w.rows[n];
    }
    assert n in w'.rows || w'.rows == w.rows - {n};
  }

  /** Marking first does not change what was taken back. */
  lemma DeleteTakenBack(w: World, w1: World, w': World, n: nat)
    requires n in w.rows && w1.rows == w.rows[n := w.rows[n].(status := Deleting)]
    requires w1.ifaces == w.ifaces && w1.current == w.current
    requires TakenBack(w1, w', n) || AllButErased(w1, w', n)
    ensures RefusedDelete(w, w', n)
  {
    if TakenBack(w1, w', n) {
      assert w'.rows == w.rows[n := w.rows[n].(status := Active)];
    } else if w'.rows != w1.rows - {n} {
      assert w'.rows == w.rows[n := w.rows[n].(status := Deleting)];
    } else {
      assert w'.rows == w.rows - {n};
    }
  }

  /** Peer n has its old configuration again, and is active. */
  predicate RolledBack(w: World, w': World, n: nat) {
    && n in w.rows && w'.rows == w.rows[n := w.rows[n].(status := Active)]
    && n in w'.ifaces && Configured(w'.ifaces[n], w.rows[n]) && w'.current == AsksFor(w')
  }

  /** An update that was rolled back leaves the table as it was exactly if the row was active. */
  lemma RolledBackExactly(w: World, w': World, n: nat)
    requires RolledBack(w, w', n)
    ensures w'.rows == w.rows <==> w.rows[n].status == Active
  {
    assert w'.rows[n].status == Active;
    if w.rows[n].status == Active { assert w.rows[n].(status := Active) == w.rows[n]; }
  }

  /** Nothing but events changed, or the peer of this name is rolled back. */
  predicate UpdateUndone(w: World, w': World, key: Key) {
    || (w'.rows == w.rows && OutsideSame(w, w'))
    || exists n :: n in w.rows && KeyOf(w.rows[n]) == key && RolledBack(w, w', n)
  }

  lemma RolledBackBy(w: World, w1: World, w': World, prior: Peer)
    requires prior.id in w.rows && w.rows[prior.id] == prior && w1.rows - {prior.id} == w.rows - {prior.id}
    requires w'.rows == w1.rows[prior.id := prior.(status := Active)]
    requires prior.id in w'.ifaces && Configured(w'.ifaces[prior.id], prior) && w'.current == AsksFor(w')
    ensures RolledBack(w, w', prior.id)
  {
    var n := prior.id;
    assert forall m :: m != n ==> (m in w.rows <==> m in w.rows - {n}) && (m in w1.rows <==> m in w1.rows - {n});
    assert forall m :: m != n && m in w.rows ==> (w.rows - {n})[m] == w.rows[m] && (w1.rows - {n})[m] == w1.rows[m];
    assert w'.rows == w.rows[n := w.rows[n].(status := Active)];
  }

  /** The row a change event of peer `n` leads to. What the event recorded does not matter. */
  function ProcessedRows(rows: map<nat, Peer>, n: nat): map<nat, Peer> {
    if n !in rows then rows
    else if rows[n].status == Deleting then rows - {n}
    else if rows[n].status == Disabled then rows
    else rows[n := rows[n].(status := Active)]
  }

  /** No status is left to be written for peer `n`. */
  predicate Quiet(rows: map<nat, Peer>, n: nat) {
    n in rows ==> Resting(rows[n])
  }

  function Restless(rows: map<nat, Peer>): set<nat> {
    set n | n in rows && !Resting(rows[n])
  }

  /** The work left: every event, and for every unfinished row its status write and the event of that. */
  function Work(w: World): nat {
    |w.outbox| + 2 * |Restless(w.rows)|
  }

  lemma RestlessFell(rows: map<nat, Peer>, n: nat)
    ensures |Restless(ProcessedRows(rows, n))| == |Restless(rows)| - if Quiet(rows, n) then 0 else 1
  {
    ProcessedRestless(rows, n);
    if Quiet(rows, n) {
      assert Restless(rows) - {n} == Restless(rows);
    } else {
      assert n in Restless(rows);
    }
  }

  /** An event was dropped; a new one was added if the row was unfinished. */
  predicate Handled(outbox: map<nat, Event>, later: map<nat, Event>, e: nat, next: nat, quiet: bool) {
    && e in outbox && next !in outbox
    && later.Keys == outbox.Keys + (if quiet then {} else {next}) - {e}
    && forall d :: d in outbox && d in later ==> later[d] == outbox[d]
  }

  lemma DropGood(w: World, e: nat)
    requires Good(w)
    ensures Good(Apply(w, DropEvent(e)))
  {
  }

  lemma ChangeHandled(w: World, w1: World, e: nat, quiet: bool)
    requires Ident(w) && e in w.outbox && OnlyPeer(w, w1, w.outbox[e].peer.id)
    requires w1.outbox.Keys == w.outbox.Keys + if quiet then {} else {w.nextEvent}
    ensures Handled(w.outbox, w1.outbox - {e}, e, w.nextEvent, quiet)
  {
  }

  lemma OutboxFell(outbox: map<nat, Event>, later: map<nat, Event>, e: nat, next: nat, quiet: bool)
    requires Handled(outbox, later, e, next, quiet)
    ensures |later| == |outbox| - if quiet then 1 else 0
    ensures quiet ==> later == outbox - {e}
  {
    OutboxSize(outbox, later, if quiet then {} else {next}, e);
    if quiet {
      assert later.Keys == (outbox - {e}).Keys;
    }
  }

  /** Processing finishes its peer and starts no work for another. */
  lemma ProcessedQuiet(rows: map<nat, Peer>, n: nat, m: nat)
    ensures Quiet(ProcessedRows(rows, n), n)
    ensures Quiet(rows, m) ==> Quiet(ProcessedRows(rows, n), m)
    ensures Quiet(rows, n) ==> ProcessedRows(rows, n) == rows
  {
    if n in rows && Quiet(rows, n) && rows[n].status == Active {
      assert rows[n].(status := Active) == rows[n];
    }
  }

  /** One row fewer is unfinished, unless none was at stake. */
  lemma ProcessedRestless(rows: map<nat, Peer>, n: nat)
    ensures Restless(ProcessedRows(rows, n)) == Restless(rows) - {n}
  {
  }

  /** Adding one event, if any, and dropping another. */
  lemma OutboxSize(m: map<nat, Event>, m': map<nat, Event>, added: set<nat>, dropped: nat)
    requires dropped in m && m'.Keys == m.Keys + added - {dropped} && added !! m.Keys && |added| <= 1
    ensures |m'| == |m| + |added| - 1
  {
    assert |m.Keys + added| == |m.Keys| + |added|;
    assert |m.Keys + added - {dropped}| == |m.Keys + added| - 1;
  }

  predicate HasEvent(outbox: map<nat, Event>, n: nat) {
    exists e :: e in outbox && outbox[e].peer.id == n
  }

  /** Whatever disagrees with the table has an event. */
  ghost predicate Recorded(w: World) {
    && (forall n :: Settled(w, n) || HasEvent(w.outbox, n))
    && (BirdSettled(w) || w.outbox != map[])
  }

  /** Events outside `todo` are new, and their peers need nothing more. */
  ghost predicate Leftovers(w: World, todo: map<nat, Event>, start: nat) {
    forall e :: e in w.outbox && e !in todo ==> e >= start && Quiet(w.rows, w.outbox[e].peer.id)
  }

  ghost predicate SettledBut(w: World, todo: map<nat, Event>) {
    forall n :: Settled(w, n) || HasEvent(todo, n)
  }

  lemma SettledOther(w: World, w': World, n: nat, m: nat)
    requires n != m && w'.rows - {n} == w.rows - {n} && w'.ifaces - {n} == w.ifaces - {n}
    ensures Settled(w', m) == Settled(w, m)
  {
    assert m in w.rows <==> m in w.rows - {n};
    assert m in w'.rows <==> m in w'.rows - {n};
    assert m in w.ifaces <==> m in w.ifaces - {n};
    assert m in w'.ifaces <==> m in w'.ifaces - {n};
  }

  lemma SettledButLess(w: World, w': World, todo: map<nat, Event>, e: nat)
    requires SettledBut(w, todo) && e in todo
    requires var n := todo[e].peer.id;
             Settled(w', n) && w'.rows - {n} == w.rows - {n} && w'.ifaces - {n} == w.ifaces - {n}
    ensures SettledBut(w', todo - {e})
  {
    var n := todo[e].peer.id;
    forall m ensures Settled(w', m) || HasEvent(todo - {e}, m) {
      if m != n {
        SettledOther(w, w', n, m);
        if HasEvent(todo, m) {
          var d :| d in todo && todo[d].peer.id == m;
          assert d in todo - {e};
        }
      }
    }
  }

  ghost predicate AllQuiet(w: World) {
    forall e :: e in w.outbox ==> Quiet(w.rows, w.outbox[e].peer.id)
  }

  /** What working on event e leaves alone, whether or not it succeeds. */
  ghost predicate Around(w: World, w': World, e: nat)
    requires e in w.outbox
  {
    var n := w.outbox[e].peer.id;
    && w'.nextEvent >= w.nextEvent && w'.localAsn == w.localAsn
    && w'.rows - {n} == w.rows - {n} && w'.ifaces - {n} == w.ifaces - {n}
    && (forall d :: d in w.outbox && d != e ==> d in w'.outbox && w'.outbox[d] == w.outbox[d])
    && (forall d :: d in w'.outbox && d !in w.outbox ==> d >= w.nextEvent && w'.outbox[d].peer.id == n)
  }

  /** Event e has been applied and is gone. */
  ghost predicate Processed(w: World, w': World, e: nat)
    requires e in w.outbox
  {
    var n := w.outbox[e].peer.id;
    && e !in w'.outbox && w'.rows == ProcessedRows(w.rows, n)
    && Settled(w', n) && BirdSettled(w') && w'.ports == DesiredPorts(w'.rows)
    && (Quiet(w.rows, n) ==> w'.outbox == w.outbox - {e})
  }

  lemma OnlyPeerAround(w: World, w': World, e: nat)
    requires e in w.outbox && OnlyPeer(w, w', w.outbox[e].peer.id)
    ensures Around(w, w', e)
  {
  }

  /** The event e was applied; it is about to be dropped. */
  ghost predicate Applied(w: World, w1: World, e: nat)
    requires e in w.outbox
  {
    var n := w.outbox[e].peer.id;
    && OnlyPeer(w, w1, n) && w1.rows == ProcessedRows(w.rows, n)
    && Settled(w1, n) && BirdSettled(w1) && w1.ports == DesiredPorts(w1.rows)
    && w1.outbox.Keys == w.outbox.Keys + if Quiet(w.rows, n) then {} else {w.nextEvent}
  }

  lemma ProcessedAround(w: World, w1: World, e: nat)
    requires Ident(w) && e in w.outbox && Applied(w, w1, e)
    ensures var w2 := Apply(w1, DropEvent(e)); Around(w, w2, e) && Processed(w, w2, e)
  {
    var n := w.outbox[e].peer.id;
    ChangeHandled(w, w1, e, Quiet(w.rows, n));
    OutboxFell(w.outbox, w1.outbox - {e}, e, w.nextEvent, Quiet(w.rows, n));
  }

  lemma ProcessedWork(w: World, w1: World, e: nat)
    requires Ident(w) && e in w.outbox && Applied(w, w1, e)
    ensures Work(Apply(w1, DropEvent(e))) < Work(w)
  {
    var n := w.outbox[e].peer.id;
    RestlessFell(w.rows, n);
    ChangeHandled(w, w1, e, Quiet(w.rows, n));
    OutboxFell(w.outbox, w1.outbox - {e}, e, w.nextEvent, Quiet(w.rows, n));
  }

  /** A pass started at `w0` still has `todo` to visit. */
  ghost predicate Todo(w0: World, w: World, todo: map<nat, Event>) {
    && w.nextEvent >= w0.nextEvent
    && forall e :: e in todo ==> e in w.outbox && w.outbox[e] == todo[e] && e in w0.outbox && w0.outbox[e] == todo[e]
  }

  ghost predicate Pass(w0: World, w: World, todo: map<nat, Event>) {
    && Leftovers(w, todo, w0.nextEvent)
    && Work(w) + |w0.outbox| <= Work(w0) + |todo|
    && (Recorded(w0) ==> SettledBut(w, todo) && (BirdSettled(w) || todo != map[]))
    && (AllQuiet(w0) ==> w.outbox == todo && w.rows == w0.rows)
  }

  lemma PassStart(w: World)
    requires Good(w)
    ensures Todo(w, w, w.outbox) && Pass(w, w, w.outbox)
  {
  }

  lemma PassEnd(w0: World, w: World)
    requires Pass(w0, w, map[])
    ensures Leftovers(w, map[], w0.nextEvent) && Work(w) + |w0.outbox| <= Work(w0)
    ensures Recorded(w0) ==> BirdSettled(w) && forall n :: Settled(w, n)
    ensures AllQuiet(w0) ==> w.outbox == map[] && w.rows == w0.rows
  {
  }

  lemma TodoStep(w0: World, w: World, w': World, todo: map<nat, Event>, e: nat)
    requires Todo(w0, w, todo) && e in todo && Around(w, w', e)
    ensures Todo(w0, w', todo - {e})
  {
  }

  lemma LeftoversStep(w: World, w': World, todo: map<nat, Event>, e: nat, start: nat)
    requires Leftovers(w, todo, start) && e in todo && e in w.outbox && w.nextEvent >= start
    requires Around(w, w', e) && Processed(w, w', e)
    ensures Leftovers(w', todo - {e}, start)
  {
    var n := w.outbox[e].peer.id;
    forall d | d in w'.outbox && d !in todo - {e} ensures d >= start && Quiet(w'.rows, w'.outbox[d].peer.id) {
      ProcessedQuiet(w.rows, n, w'.outbox[d].peer.id);
    }
  }

  lemma PassStep(w0: World, w: World, w': World, todo: map<nat, Event>, e: nat)
    requires Todo(w0, w, todo) && Pass(w0, w, todo) && e in todo
    requires Around(w, w', e) && Processed(w, w', e) && Work(w') < Work(w)
    ensures Pass(w0, w', todo - {e})
  {
    LeftoversStep(w, w', todo, e, w0.nextEvent);
    assert |todo - {e}| == |todo| - 1 by { assert (todo - {e}).Keys == todo.Keys - {e}; }
    if Recorded(w0) { SettledButLess(w, w', todo, e); }
    if AllQuiet(w0) { ProcessedQuiet(w.rows, todo[e].peer.id, 0); }
  }

  lemma PassOn(w0: World, w: World, w': World, todo: map<nat, Event>, e: nat, was: bool, ok: bool)
    requires Todo(w0, w, todo) && e in todo && (was ==> Pass(w0, w, todo)) && (ok ==> was)
    requires Around(w, w', e) && (ok ==> Processed(w, w', e) && Work(w') < Work(w))
    ensures Todo(w0, w', todo - {e}) && (ok ==> Pass(w0, w', todo - {e}))
  {
    TodoStep(w0, w, w', todo, e);
    if ok { PassStep(w0, w, w', todo, e); }
  }

  /** Listed events that were visited and are still there. */
  function Kept(listed: map<nat, Event>, todo: map<nat, Event>, w: World): set<nat> {
    set e | e in listed && e !in todo && e in w.outbox
  }

  lemma {:induction false} Card(a: set<nat>, b: set<nat>)
    requires a <= b
    ensures |a| <= |b|
  {
    if a != {} {
      var x :| x in a;
      Card(a - {x}, b - {x});
    }
  }

  lemma KeptEnds(listed: map<nat, Event>, w: World)
    ensures Kept(listed, listed, w) == {}
    ensures Kept(listed, map[], w) == listed.Keys * w.outbox.Keys
  {
  }

  /** A turn keeps at most its own event. */
  lemma KeptStep(listed: map<nat, Event>, todo: map<nat, Event>, w: World, w': World, e: nat)
    requires e in todo && e in w.outbox && Around(w, w', e) && forall d :: d in listed ==> d < w.nextEvent
    ensures |Kept(listed, todo - {e}, w')| <= |Kept(listed, todo, w)| + if e in w'.outbox then 1 else 0
  {
    var before := Kept(listed, todo, w);
    if e in w'.outbox {
      Card(Kept(listed, todo - {e}, w'), before + {e});
    } else {
      Card(Kept(listed, todo - {e}, w'), before);
    }
  }

  /** Events are visited in the order of their ids. */
  method FirstEvent(m: map<nat, Event>) returns (e: nat)
    requires m != map[]
    ensures e in m && forall d :: d in m ==> e <= d
  {
    ghost var least := Machine.Least(m);
    e :| e in m && forall d :: d in m ==> e <= d;
  }

  /** Only interfaces changed. */
  predicate OnlyIfaces(w: World, w': World) {
    w' == w.(ifaces := w'.ifaces)
  }

  /** Some interfaces among `names` are gone; the others are as they were. */
  predicate Fewer(w: World, w': World, names: set<nat>) {
    && OnlyIfaces(w, w')
    && (forall n :: n in w'.ifaces ==> n in w.ifaces && w'.ifaces[n] == w.ifaces[n])
    && (forall n :: n in w.ifaces && n !in names ==> n in w'.ifaces)
  }

  /** Interfaces without a row whose deletion is recorded. */
  ghost function Strays(w: World): set<nat> {
    set n | n in w.ifaces && n !in w.rows && Invariant.DeleteRecorded(w, n)
  }

  /** The interface a recorded deletion is about is gone, unless its row exists. */
  predicate Purged(w: World, v: Event) {
    v.op == Delete && v.peer.id in w.ifaces ==> v.peer.id in w.rows
  }

  /** The recorded deletions of w0 are handled, except for those in `rest`. */
  predicate Purging(w0: World, w: World, rest: map<nat, Event>) {
    && rest.Keys <= w0.outbox.Keys
    && forall e :: e in w0.outbox ==> if e in rest then rest[e] == w0.outbox[e] else Purged(w, w0.outbox[e])
  }

  lemma FewerChain(w: World, w1: World, w2: World)
    requires Fewer(w, w1, Strays(w)) && Fewer(w1, w2, Strays(w1))
    ensures Fewer(w, w2, Strays(w))
  {
  }

  lemma PurgeStep(w0: World, w: World, w': World, rest: map<nat, Event>, e: nat)
    requires Purging(w0, w, rest) && Fewer(w, w', Strays(w)) && e in rest && (e in w0.outbox ==> Purged(w', rest[e]))
    ensures Purging(w0, w', rest - {e})
  {
  }

  /** An interface without a row has a DELETE event. */
  ghost predicate Accounted(w: World) {
    forall n :: n in w.ifaces ==> n in w.rows || Invariant.DeleteRecorded(w, n)
  }

  lemma UpKept(w: World, w': World, names: set<nat>, snap: map<nat, Peer>, ids: set<nat>)
    requires Repair.AllUp(w, snap, ids) && Fewer(w, w', names) && ids !! names
    ensures Repair.AllUp(w', snap, ids)
  {
    forall n | n in ids ensures Repair.Up(w', snap, n) {
      assert Repair.Up(w, snap, n);
    }
  }

  lemma UpStep(w: World, w': World, snap: map<nat, Peer>, ids: set<nat>, n: nat, ok: bool)
    requires Good(w) && snap == w.rows && n in snap && n !in ids && Repair.AllUp(w, snap, ids)
    requires OnlyIface(w, w', snap[n].iface) && (snap[n].iface in w.ifaces ==> snap[n].iface in w'.ifaces)
    requires ok ==> snap[n].iface in w'.ifaces && Configured(w'.ifaces[snap[n].iface], snap[n])
    ensures Good(w') && w.ifaces.Keys <= w'.ifaces.Keys <= w.ifaces.Keys + {n}
    ensures forall m :: m in w'.ifaces && m != n ==> m in w.ifaces && w'.ifaces[m] == w.ifaces[m]
    ensures ok ==> Repair.AllUp(w', snap, ids + {n})
  {
    KnownIface(w, w', n);
    forall m | m in w'.ifaces && m != n ensures m in w.ifaces && w'.ifaces[m] == w.ifaces[m] {
      assert m in w'.ifaces - {n} && (w'.ifaces - {n})[m] == (w.ifaces - {n})[m];
    }
    forall m | m in w.ifaces ensures m in w'.ifaces {
      assert m == n || m in w.ifaces - {n};
    }
    forall m | m in ids ensures Repair.Up(w', snap, m) {
      assert Repair.Up(w, snap, m) && m in w.ifaces - {n} && (w.ifaces - {n})[m] == (w'.ifaces - {n})[m];
    }
  }

  lemma EraseStep(peers: map<nat, Peer>, rows: map<nat, Peer>, later: map<nat, Peer>, n: nat)
    requires Repair.Between(peers, rows) && n in Machine.DeletingIds(peers) && (later == rows || later == rows - {n})
    ensures Repair.Between(peers, later)
  {
    forall m ensures Repair.RowBetween(peers, later, m) {
      assert Repair.RowBetween(peers, rows, m);
    }
  }

  lemma UpSame(w: World, w': World, snap: map<nat, Peer>, ids: set<nat>)
    requires Repair.AllUp(w, snap, ids) && w'.ifaces == w.ifaces
    ensures Repair.AllUp(w', snap, ids)
  {
    forall n | n in ids ensures Repair.Up(w', snap, n) {
      assert Repair.Up(w, snap, n);
    }
  }

  lemma WantedSpared(w: World, peers: map<nat, Peer>)
    requires Ident(w) && peers == w.rows
    ensures Machine.WantedIds(peers) !! (Machine.ManagedIfaces(w) - Machine.WantedIfaces(peers))
  {
    forall n | n in Machine.WantedIds(peers) ensures n in Machine.WantedIfaces(peers) {
      assert peers[n].iface == n;
    }
  }

  /** An interface that neither a row, nor its alias, nor a recorded deletion accounts for. */
  ghost predicate Forgotten(w: World, n: nat) {
    n in w.ifaces && w.ifaces[n].alias.None? && n !in w.rows && !Invariant.DeleteRecorded(w, n)
  }

  /** Interfaces of unwanted rows and marked ones without a wanted row are gone; forgotten ones are still there. */
  ghost predicate Swept(w: World, w': World) {
    && OnlyIfaces(w, w') && (forall n :: n in w'.ifaces ==> n in w.ifaces && w'.ifaces[n] == w.ifaces[n])
    && (forall n :: n in w'.ifaces && w'.ifaces[n].alias.Some? ==> n in Machine.WantedIds(w.rows))
    && Invariant.Gone(w', Machine.UnwantedIds(w.rows)) && forall n :: Forgotten(w, n) ==> n in w'.ifaces
  }

  lemma SweptBoth(w: World, w1: World, w2: World)
    requires Ident(w) && Fewer(w, w1, Machine.UnwantedIds(w.rows)) && Invariant.Gone(w1, Machine.UnwantedIds(w.rows))
    requires var names := Machine.ManagedIfaces(w1) - Machine.WantedIfaces(w.rows);
             Fewer(w1, w2, names) && Invariant.Gone(w2, names)
    ensures Swept(w, w2)
  {
    forall n | n in w2.ifaces && w2.ifaces[n].alias.Some? ensures n in Machine.WantedIds(w.rows) {
      assert n in w1.ifaces && n in Machine.ManagedIfaces(w1);
      assert n in Machine.WantedIfaces(w.rows);
    }
  }

  /** After the recorded deletions only wanted and forgotten interfaces are left. */
  lemma AllCleared(w0: World, w: World, w': World)
    requires Swept(w0, w) && Fewer(w, w', Strays(w)) && Repair.AllUp(w', w0.rows, Machine.WantedIds(w0.rows))
    requires forall e :: e in w'.outbox ==> Purged(w', w'.outbox[e])
    ensures forall n :: n in w'.ifaces <==> n in Machine.WantedIds(w0.rows) || Forgotten(w0, n)
  {
    forall n | n in w'.ifaces ensures n in Machine.WantedIds(w0.rows) || Forgotten(w0, n) {
      assert n in w.ifaces && n in w0.ifaces && w.ifaces[n] == w0.ifaces[n];
    }
    forall n | n in Machine.WantedIds(w0.rows) ensures n in w'.ifaces {
      assert Repair.Up(w', w0.rows, n);
    }
    forall n | Forgotten(w0, n) ensures n in w'.ifaces {
      assert n in w.ifaces && n !in Strays(w);
    }
  }

  lemma NothingForgotten(w: World)
    requires Accounted(w)
    ensures forall n :: !Forgotten(w, n)
  {
  }

  /** Configuring wanted interfaces forgets none and remembers none. */
  lemma StillForgotten(w: World, w': World)
    requires w'.rows == w.rows && w'.outbox == w.outbox
    requires w.ifaces.Keys <= w'.ifaces.Keys <= w.ifaces.Keys + Machine.WantedIds(w.rows)
    requires forall n :: n in w'.ifaces && n !in w.rows ==> n in w.ifaces && w'.ifaces[n] == w.ifaces[n]
    ensures forall n :: Forgotten(w', n) <==> Forgotten(w, n)
  {
    assert forall n :: Invariant.DeleteRecorded(w', n) <==> Invariant.DeleteRecorded(w, n);
  }

  lemma StillAccounted(w: World, w': World, peers: map<nat, Peer>)
    requires Accounted(w) && w'.rows == w.rows == peers && w'.outbox == w.outbox
    requires w'.ifaces.Keys <= w.ifaces.Keys + Machine.WantedIds(peers)
    ensures Accounted(w')
  {
    forall n | n in w'.ifaces ensures n in w'.rows || Invariant.DeleteRecorded(w', n) {
      if n in w.ifaces && n !in w.rows { assert Invariant.DeleteRecorded(w, n); }
    }
  }

  /** No row is gone before its interface, and no wanted row has lost its own. */
  ghost predicate Careful(w: World, w': World) {
    && (forall n :: n in w.rows && n !in w'.rows ==> n !in w'.ifaces)
    && (forall n :: n in w.ifaces && n in w.rows && Wanted(w.rows[n]) ==> n in w'.ifaces)
  }

  lemma ClearedCarefully(w0: World, w: World, w': World)
    requires w.rows == w0.rows && OnlyIfaces(w, w') && w'.ifaces.Keys <= w.ifaces.Keys
    requires Repair.AllUp(w', w0.rows, Machine.WantedIds(w0.rows))
    ensures Careful(w0, w') && (Accounted(w) ==> Accounted(w'))
  {
    forall n | n in w0.rows && Wanted(w0.rows[n]) ensures n in w'.ifaces {
      assert Repair.Up(w', w0.rows, n);
    }
    if Accounted(w) {
      forall n | n in w'.ifaces ensures n in w'.rows || Invariant.DeleteRecorded(w', n) {
        assert n in w.rows || Invariant.DeleteRecorded(w, n);
      }
    }
  }

  lemma FinishedCarefully(w0: World, w: World, w': World)
    requires w.rows == w0.rows && w'.ifaces == w.ifaces && Repair.Between(w0.rows, w'.rows)
    requires forall n :: n in w.ifaces <==> n in Machine.WantedIds(w0.rows) || Forgotten(w0, n)
    ensures Careful(w0, w') && (Accounted(w0) ==> Accounted(w'))
  {
    forall n | n in w0.rows ensures n in w'.rows || n !in w'.ifaces {
      assert Repair.RowBetween(w0.rows, w'.rows, n);
    }
    if Accounted(w0) {
      NothingForgotten(w0);
      forall n | n in w'.ifaces ensures n in w'.rows {
        assert Repair.RowBetween(w0.rows, w'.rows, n);
      }
    }
  }

  /** The goal table with the rows in `rest` not yet activated. */
  function Partially(peers: map<nat, Peer>, rest: set<nat>): map<nat, Peer> {
    map n | n in peers && peers[n].status != Deleting ::
      if Wanted(peers[n]) && n !in rest then peers[n].(status := Active) else peers[n]
  }

  lemma PartiallyEnds(peers: map<nat, Peer>)
    ensures Partially(peers, Machine.WantedIds(peers)) == peers - Machine.DeletingIds(peers)
    ensures Partially(peers, {}) == Repair.Recovered(peers)
    ensures Repair.Between(peers, peers - Machine.DeletingIds(peers))
  {
    forall n ensures Repair.RowBetween(peers, peers - Machine.DeletingIds(peers), n) {}
  }

  lemma ActivateStep(peers: map<nat, Peer>, rest: set<nat>, later: map<nat, Peer>, n: nat, ok: bool)
    requires rest <= Machine.WantedIds(peers) && n in rest
    requires var rows := Partially(peers, rest);
             if ok then n in rows && later == rows[n := rows[n].(status := Active)]
             else later == rows || (n in rows && later == rows[n := rows[n].(status := Active)])
    ensures Repair.Between(peers, later) && n in Partially(peers, rest)
    ensures ok ==> later == Partially(peers, rest - {n})
  {
    forall m ensures Repair.RowBetween(peers, later, m) {}
  }

  /** What a successful recovery leaves, whatever it started from. */
  ghost predicate Cleaned(w0: World, w: World) {
    && w.rows == Repair.Recovered(w0.rows) && Repair.AllUp(w, w0.rows, Machine.WantedIds(w0.rows))
    && (forall n :: n in w.ifaces <==> n in Machine.WantedIds(w0.rows) || Forgotten(w0, n))
    && w.ports == DesiredPorts(w0.rows) && w.current == AsksFor(w0)
  }

  lemma RecoveredAll(w0: World, w: World)
    requires Cleaned(w0, w) && w.localAsn == w0.localAsn && Accounted(w0)
    ensures Repair.Repaired(w, w0.rows)
  {
    NothingForgotten(w0);
    forall n | n in w.ifaces ensures Configured(w.ifaces[n], w.rows[n]) {
      assert Repair.Up(w, w0.rows, n);
    }
  }

  /** What a reservation ends with. */
  datatype Reservation = Reserved(peer: Peer) | NameExists | NoPort | Failed

  /** The answer to a statement. */
  datatype Reply = Affected(changed: bool) | Unknown

  class PeerManager {
    var w: World
    ghost var faults: nat   // calls that reported an error so far

    constructor (w: World)
      ensures this.w == w && faults == 0
    {
      this.w, faults := w, 0;
    }

    /** Any external call or statement. */
    method Call(eff: Eff) returns (out: Outcome)
      modifies this
      ensures w == if out.Fail? then old(w) else Apply(old(w), eff)
      ensures faults == if out.Succeed? then old(faults) else old(faults) + 1
    {
      var succeeds: bool, reached: bool := *, *;
      out := if succeeds then Succeed else if reached then FailAfter else Fail;
      if !out.Fail? { w := Apply(w, eff); }
      if !out.Succeed? { faults := faults + 1; }
    }

    // ---- statements ----

    /** `set_status` */
    method SetStatus(id: nat, status: Status) returns (r: Reply)
      modifies this
      ensures r.Affected? <==> faults == old(faults)
      ensures faults >= old(faults)
      ensures r.Affected? ==> r.changed == (id in old(w).rows)
                              && w == Apply(old(w), Machine.StatusWrite(old(w), id, status, Succeed))
      ensures r.Unknown? ==> w == old(w) || w == Apply(old(w), Machine.StatusWrite(old(w), id, status, Succeed))
    {
      var changed := id in w.rows;
      var out := Call(Machine.StatusWrite(w, id, status, Succeed));
      r := if out.Succeed? then Affected(changed) else Unknown;
    }

    /** `delete_peer` of the store */
    method EraseRow(id: nat) returns (r: Reply)
      modifies this
      ensures r.Affected? <==> faults == old(faults)
      ensures faults >= old(faults)
      ensures r.Affected? ==> r.changed == (id in old(w).rows)
                              && w == Apply(old(w), Machine.EraseWrite(old(w), id, Succeed))
      ensures r.Unknown? ==> w == old(w) || w == Apply(old(w), Machine.EraseWrite(old(w), id, Succeed))
    {
      var changed := id in w.rows;
      var out := Call(Machine.EraseWrite(w, id, Succeed));
      r := if out.Succeed? then Affected(changed) else Unknown;
    }

    /** `update_peer_desired`. The port column is unique, so a port another row has is refused. */
    method UpdateDesired(p: Peer) returns (r: Reply)
      modifies this
      ensures faults >= old(faults)
      ensures r.Affected? ==> faults == old(faults) && r.changed == (p.id in old(w).rows)
      ensures r.Affected? ==>
                w == if p.id in old(w).rows then Apply(old(w), SetRow(Update, Stored(old(w).rows[p.id], p))) else old(w)
      ensures r.Unknown? ==>
                w == old(w)
                || (p.id in old(w).rows && !PortTaken(old(w), p.port, p.id)
                    && w == Apply(old(w), SetRow(Update, Stored(old(w).rows[p.id], p))))
      ensures r.Affected? && p.id in old(w).rows ==> !PortTaken(old(w), p.port, p.id)
      ensures r.Unknown? && faults == old(faults) ==> p.id in old(w).rows && PortTaken(old(w), p.port, p.id)
    {
      var changed := p.id in w.rows;
      if changed && PortTaken(w, p.port, p.id) { return Unknown; }
      var out := Call(if changed then SetRow(Update, Stored(w.rows[p.id], p)) else Skip);
      r := if out.Succeed? then Affected(changed) else Unknown;
    }

    // ---- external state ----

    /** One change of one interface. */
    method SetInterface(n: nat, i: Iface) returns (ok: bool)
      modifies this
      ensures OnlyIface(old(w), w, n)
      ensures ok <==> faults == old(faults)
      ensures faults >= old(faults)
      ensures ok ==> n in w.ifaces && w.ifaces[n] == i
      ensures n in old(w).ifaces ==> n in w.ifaces
    {
      var out := Call(SetIface(n, i));
      ok := out.Succeed?;
    }

    /** `ensure_wg_interface` */
    method EnsureInterface(p: Peer) returns (ok: bool)
      modifies this
      ensures OnlyIface(old(w), w, p.iface) && (p.iface in old(w).ifaces ==> p.iface in w.ifaces)
      ensures ok <==> faults == old(faults)
      ensures faults >= old(faults)
      ensures ok ==>
                p.iface in w.ifaces && w.ifaces[p.iface].mtu == Some(p.mtu) && w.ifaces[p.iface].alias == Some(p.id)
    {
      var n := p.iface;
      if n !in w.ifaces {
        ok := SetInterface(n, BARE_LINK);
        if !ok { return; }
      }
      ok := SetInterface(n, Machine.Tuned(w.ifaces[n], p, Machine.SetLink));
    }

    /** `apply_wireguard` */
    method ApplyWireguard(p: Peer) returns (ok: bool)
      modifies this
      ensures OnlyIface(old(w), w, p.iface) && (p.iface in old(w).ifaces ==> p.iface in w.ifaces)
      ensures ok <==> faults == old(faults)
      ensures faults >= old(faults)
      ensures ok ==> p.iface in w.ifaces && Configured(w.ifaces[p.iface], p)
    {
      var n := p.iface;
      ok := EnsureInterface(p);
      if !ok { return; }
      if p.endpoint.Some? {
        var out := Call(Skip);   // resolve the endpoint
        if !out.Succeed? { return false; }
      }
      ok := SetInterface(n, Machine.Tuned(w.ifaces[n], p, Machine.Configure));
      if !ok { return; }
      ok := SetInterface(n, Machine.Tuned(w.ifaces[n], p, Machine.AddAddress));
    }

    /** `sync_bird_configs`. Bird.Store shows how the calls behind each change of `current` work. */
    method SyncBird() returns (ok: bool)
      requires Ident(w)
      modifies this
      ensures OnlyCurrent(old(w), w)
      ensures ok <==> faults == old(faults)
      ensures faults >= old(faults)
      ensures ok ==> w.current == AsksFor(w)
    {
      var out := Call(Skip);   // list the rows
      if !out.Succeed? { return false; }
      var desired := DesiredGeneration(w.localAsn, w.rows);
      if w.current == None {
        out := Call(SetCurrent(Some(map[])));
        if !out.Succeed? { return false; }
      }
      out := Call(Skip);       // read the current generation
      if !out.Succeed? { return false; }
      if w.current == Some(desired) { return true; }
      var prior := w.current;
      out := Call(SetCurrent(Some(desired)));
      if !out.Succeed? { return false; }
      out := Call(Skip);       // reload
      if !out.Succeed? {
        out := Call(SetCurrent(prior));
        return false;
      }
      return true;
    }

    /** `sync_nft_ports` */
    method SyncNft() returns (ok: bool)
      modifies this
      ensures OnlyPorts(old(w), w)
      ensures ok <==> faults == old(faults)
      ensures faults >= old(faults)
      ensures ok ==> w.ports == DesiredPorts(w.rows)
    {
      var out := Call(Skip);   // list the rows
      if !out.Succeed? { return false; }
      out := Call(SetPorts(DesiredPorts(w.rows)));
      ok := out.Succeed?;
    }

    /** `apply_peer` */
    method ApplyPeer(p: Peer) returns (ok: bool)
      requires Ident(w) && KnownPeer(w, p)
      modifies this
      ensures OnlyExternal(old(w), w, p.id) && Ident(w)
      ensures ok <==> faults == old(faults)
      ensures faults >= old(faults)
      ensures ok ==> p.id in w.ifaces && Configured(w.ifaces[p.id], p) && w.current == AsksFor(w)
      // BIRD is touched only once the interface is as the row asks.
      ensures w.current != old(w).current ==> p.id in w.ifaces && Configured(w.ifaces[p.id], p)
    {
      ok := ApplyWireguard(p);
      KnownIface(old(w), w, p.id);
      if ok { ok := SyncBird(); }
    }

    /** `remove_external_state`: first the BIRD fragment, then the interface. */
    method RemoveExternal(p: Peer) returns (ok: bool)
      requires Ident(w) && KnownPeer(w, p)
      modifies this
      ensures OnlyExternal(old(w), w, p.id) && Ident(w)
      ensures ok <==> faults == old(faults)
      ensures faults >= old(faults)
      ensures ok ==> p.id !in w.ifaces && w.current == AsksFor(w)
      // The interface is untouched until BIRD shows what the table asks for.
      ensures w.current != AsksFor(w) ==> w.ifaces == old(w).ifaces
      ensures p.id in w.ifaces ==> w.ifaces == old(w).ifaces
    {
      ok := SyncBird();
      if !ok { return; }
      var out := Call(DropIface(p.iface));
      ok := out.Succeed?;
    }

    /** Interface, BIRD fragment and port of a peer whose row asks for them. */
    method Raise(p: Peer) returns (ok: bool)
      requires Good(w) && KnownPeer(w, p)
      modifies this
      ensures Good(w) && OnlyPeer(old(w), w, p.id) && w.rows == old(w).rows && w.outbox == old(w).outbox
      ensures ok <==> faults == old(faults)
      ensures faults >= old(faults)
      ensures ok ==> p.id in w.ifaces && Configured(w.ifaces[p.id], p)
                     && w.current == AsksFor(w) && w.ports == DesiredPorts(w.rows)
      // Interface first, then BIRD, then the ports.
      ensures w.current != old(w).current ==> p.id in w.ifaces && Configured(w.ifaces[p.id], p)
      ensures w.ports != old(w).ports ==>
                p.id in w.ifaces && Configured(w.ifaces[p.id], p) && w.current == AsksFor(w)
    {
      ok := ApplyPeer(p);
      ghost var w1 := w;
      ExternalOnlyPeer(old(w), w1, p.id);
      if ok {
        ok := SyncNft();
        ExternalOnlyPeer(w1, w, p.id);
        OnlyPeerChain(old(w), w1, w, p.id);
      }
    }

    // ---- reserving a port ----

    /** `reserve_peer` of the store: inserts the row, or in test mode inserts it and rolls back. */
    method InsertRow(p: Peer, test: bool) returns (r: Reply)
      modifies this
      ensures r.Affected? <==> faults == old(faults)
      ensures faults >= old(faults)
      ensures r.Affected? ==> r.changed == !Conflict(old(w), p)
      ensures w == old(w) || (!test && !Conflict(old(w), p) && w == Apply(old(w), SetRow(Insert, p)))
      ensures r.Affected? && r.changed && !test ==> w == Apply(old(w), SetRow(Insert, p))
    {
      var fits := !Conflict(w, p);
      var out := Call(if fits && !test then SetRow(Insert, p) else Skip);
      r := if out.Succeed? then Affected(fits) else Unknown;
    }

    /** One turn of the scan in `reserve_peer`; no result means that the port is taken. */
    method TryPort(r: Request, id: nat, port: nat) returns (res: Option<Reservation>)
      requires Good(w) && r.key.asn < U32 && NamedPeer(w, NewPeer(w.localAsn, id, r, port)) && id !in w.rows
      modifies this
      ensures Good(w) && faults >= old(faults)
      ensures res != Some(NoPort) && (res.None? || !res.value.Failed? ==> faults == old(faults))
      ensures res == Some(Failed) ==> faults > old(faults)
      ensures w == old(w) || (r.key.asn != w.localAsn
                && w == Apply(old(w), SetRow(Insert, NewPeer(w.localAsn, id, r, port))))
      ensures res.None? ==> w == old(w) && Busy(w, port)
      ensures res == Some(NameExists) ==> w == old(w) && NameTaken(w, r.key)
      ensures res.Some? && res.value.Reserved? ==>
                && !Busy(old(w), port) && res.value.peer == NewPeer(w.localAsn, id, r, port)
                && (r.key.asn != w.localAsn ==> w == Apply(old(w), SetRow(Insert, res.value.peer)))
    {
      var out := Call(Skip);   // look at the WireGuard devices
      if !out.Succeed? { return Some(Failed); }
      if PortInUse(w, port) { return None; }
      var peer := NewPeer(w.localAsn, id, r, port);
      if !Conflict(w, peer) { InsertGood(w, peer); }
      var reply := InsertRow(peer, r.key.asn == w.localAsn);
      if reply.Unknown? { return Some(Failed); }
      if reply.changed { return Some(Reserved(peer)); }
      out := Call(Skip);   // look for the name
      if !out.Succeed? { return Some(Failed); }
      return if NameTaken(w, r.key) then Some(NameExists) else None;
    }

    /** `reserve_peer`: takes an id and tries the ports in turn. */
    method ReservePeer(r: Request) returns (res: Reservation, ghost tried: seq<nat>)
      requires Good(w) && r.key.asn < U32
      modifies this
      ensures Good(w) && faults >= old(faults) && OutsideSame(old(w), w) && SpareOthers(old(w), w, old(w).nextId)
      // Ports are tried in cyclic order from the preferred one, none twice (CandidatesDiffer).
      ensures |tried| <= PORT_COUNT && InScanOrder(tried, r.key.asn)
      ensures res.NoPort? ==> |tried| == PORT_COUNT
      // The first free one is taken, and the row is what was asked for.
      ensures res.Reserved? ==>
                && tried != [] && !Busy(old(w), tried[|tried| - 1])
                && res.peer == NewPeer(old(w).localAsn, old(w).nextId, r, tried[|tried| - 1])
                && forall i :: 0 <= i < |tried| - 1 ==> Busy(old(w), tried[i])
      ensures res.Reserved? ==>
                && AsRequested(res.peer, old(w).localAsn, r) && res.peer.id == old(w).nextId
                && res.peer.port == tried[|tried| - 1] && 20_000 <= res.peer.port < 30_000
                && res.peer.status == Provisioning
      ensures res.Reserved? ==>
                w == if r.key.asn == old(w).localAsn then Apply(old(w), Issue(r.key))
                     else Apply(Apply(old(w), Issue(r.key)), SetRow(Insert, res.peer))
      // Test mode leaves rows and events alone, whatever fails.
      ensures r.key.asn == old(w).localAsn || res.NoPort? || res.NameExists? ==>
                w.rows == old(w).rows && w.outbox == old(w).outbox
      // A failure leaves at most the row whose insertion reported an error.
      ensures res.Failed? ==> w.rows == old(w).rows || (tried != [] && LostInsert(old(w), w, r, tried[|tried| - 1]))
      // Exhaustion is reported only when no port is free, and then unless the name exists or a call fails.
      ensures res.NoPort? ==> forall port :: 20_000 <= port < 30_000 ==> Busy(old(w), port)
      ensures res.NameExists? ==> NameTaken(old(w), r.key)
      ensures faults == old(faults) && old(w).nextId < U32 && !NameTaken(old(w), r.key) ==> res.Reserved? || res.NoPort?
    {
      var id := w.nextId;
      IssueGood(w, r);
      var out := Call(Issue(r.key));
      if !out.Succeed? || id >= U32 { return Failed, []; }
      res, tried := ScanPorts(r, id);
      IdsTaken(old(w), r);
      if w.rows != old(w).rows {
        InsertSpares(old(w), w, r, NewPeer(w.localAsn, id, r, tried[|tried| - 1]));
      }
    }

    /** The loop of `reserve_peer`. */
    method ScanPorts(r: Request, id: nat) returns (res: Reservation, ghost tried: seq<nat>)
      requires Good(w) && r.key.asn < U32 && id !in w.rows && id in w.keys && w.keys[id] == r.key
      modifies this
      ensures Good(w) && faults >= old(faults)
      ensures |tried| <= PORT_COUNT && InScanOrder(tried, r.key.asn)
      ensures w == old(w)
              || (r.key.asn != w.localAsn && tried != []
                  && w == Apply(old(w), SetRow(Insert, NewPeer(w.localAsn, id, r, tried[|tried| - 1]))))
      ensures res.Reserved? ==>
                && tried != [] && !Busy(old(w), tried[|tried| - 1])
                && res.peer == NewPeer(w.localAsn, id, r, tried[|tried| - 1])
                && forall i :: 0 <= i < |tried| - 1 ==> Busy(old(w), tried[i])
      ensures res.Reserved? && r.key.asn != w.localAsn ==> w == Apply(old(w), SetRow(Insert, res.peer))
      ensures res.Reserved? ==>
                && AsRequested(res.peer, w.localAsn, r) && res.peer.id == id
                && res.peer.port == tried[|tried| - 1] && 20_000 <= res.peer.port < 30_000
                && res.peer.status == Provisioning
      ensures res.NoPort? ==> |tried| == PORT_COUNT
      ensures res.NoPort? ==> w == old(w) && forall port :: 20_000 <= port < 30_000 ==> Busy(w, port)
      ensures res.NameExists? ==> w == old(w) && NameTaken(w, r.key)
      ensures res.Failed? ==> faults > old(faults)
    {
      tried := [];
      var k := 0;
      while k < PORT_COUNT
        invariant 0 <= k <= PORT_COUNT && w == old(w) && faults == old(faults)
        invariant |tried| == k && forall i :: 0 <= i < k ==> tried[i] == Machine.CandidatePort(r.key.asn, i)
        invariant forall i :: 0 <= i < k ==> Busy(w, tried[i])
      {
        var port := Machine.CandidatePort(r.key.asn, k);
        tried := tried + [port];
        k := k + 1;
        CandidatesInOrder(tried, r.key.asn);
        var answer := TryPort(r, id, port);
        if answer.Some? { return answer.value, tried; }
      }
      Exhausted(w, r, tried);
      return NoPort, tried;
    }

    // ---- compensation ----

    /** `set_status` by an operation on peer `id`. */
    method WriteStatus(id: nat, status: Status) returns (changed: bool)
      requires Good(w)
      modifies this
      ensures Good(w) && faults >= old(faults) && OnlyPeer(old(w), w, id)
      ensures w == old(w) || (id in old(w).rows && w.rows == old(w).rows[id := old(w).rows[id].(status := status)])
      ensures w.ifaces == old(w).ifaces && w.current == old(w).current && w.ports == old(w).ports
      ensures changed ==> id in old(w).rows && w.rows == old(w).rows[id := old(w).rows[id].(status := status)]
      ensures changed ==> w.outbox.Keys == old(w).outbox.Keys + {old(w).nextEvent}
      ensures faults == old(faults) ==> changed == (id in old(w).rows)
    {
      StatusGood(w, id, status);
      WriteOnlyPeer(w, Machine.StatusWrite(w, id, status, Succeed), id);
      var reply := SetStatus(id, status);
      changed := reply == Affected(true);
    }

    /** `delete_peer` of the store by an operation on peer `id`. */
    method WriteErase(id: nat) returns (changed: bool)
      requires Good(w)
      modifies this
      ensures Good(w) && faults >= old(faults) && OnlyPeer(old(w), w, id)
      ensures w.rows == old(w).rows || w.rows == old(w).rows - {id}
      ensures w.ifaces == old(w).ifaces && w.current == old(w).current && w.ports == old(w).ports
      ensures changed ==> id in old(w).rows && w.rows == old(w).rows - {id}
      ensures changed ==> w.outbox.Keys == old(w).outbox.Keys + {old(w).nextEvent}
      ensures faults == old(faults) ==> changed == (id in old(w).rows)
    {
      EraseGood(w, id);
      WriteOnlyPeer(w, Machine.EraseWrite(w, id, Succeed), id);
      var reply := EraseRow(id);
      changed := reply == Affected(true);
    }

    /** `update_peer_desired` by an operation on peer `p`. */
    method WriteDesired(p: Peer) returns (failed: bool, changed: bool)
      requires Good(w) && KnownPeer(w, p)
      modifies this
      ensures Good(w) && faults >= old(faults) && OnlyPeer(old(w), w, p.id)
      ensures w.rows == old(w).rows || (p.id in old(w).rows
                && w.rows == old(w).rows[p.id := p.(status := Provisioning)])
      ensures w.ifaces == old(w).ifaces && w.current == old(w).current && w.ports == old(w).ports
      ensures !failed ==> changed == (p.id in old(w).rows)
      ensures changed ==> !failed && w.rows == old(w).rows[p.id := p.(status := Provisioning)]
      ensures faults == old(faults) && !PortTaken(old(w), p.port, p.id) ==> !failed
    {
      if p.id in w.rows && !PortTaken(w, p.port, p.id) {
        StoreGood(w, p);
        WriteOnlyPeer(w, SetRow(Update, Stored(w.rows[p.id], p)), p.id);
      }
      var reply := UpdateDesired(p);
      failed := reply.Unknown?;
      changed := reply == Affected(true);
    }

    /** Removes what is outside the table, and then the row if that succeeded. */
    method Withdraw(p: Peer) returns (removed: bool, deleted: bool)
      requires Good(w) && KnownPeer(w, p)
      modifies this
      ensures Good(w) && faults >= old(faults) && OnlyPeer(old(w), w, p.id) && w.ports == old(w).ports
      ensures w.rows == old(w).rows || w.rows == old(w).rows - {p.id}
      ensures removed ==> p.id !in w.ifaces && w.current == AsksFor(old(w))
      ensures if removed then deleted ==> p.id in old(w).rows && w.rows == old(w).rows - {p.id}
              else !deleted && w.rows == old(w).rows
      ensures faults == old(faults) ==> removed && deleted == (p.id in old(w).rows)
      ensures !removed ==> faults > old(faults)
    {
      removed := RemoveExternal(p);
      ghost var w1 := w;
      ExternalOnlyPeer(old(w), w1, p.id);
      deleted := false;
      if removed {
        deleted := WriteErase(p.id);
        OnlyPeerChain(old(w), w1, w, p.id);
      }
    }

    /** The part of `compensate_failed_create` after the deleting mark. */
    method WithdrawAndClose(p: Peer) returns (removed: bool, deleted: bool, synced: bool)
      requires Good(w) && KnownPeer(w, p)
      modifies this
      ensures Good(w) && faults >= old(faults) && OnlyPeer(old(w), w, p.id)
      ensures removed ==> p.id !in w.ifaces && w.current == AsksFor(old(w))
      ensures deleted ==> removed && p.id in old(w).rows && w.rows == old(w).rows - {p.id}
      ensures synced ==> w.ports == DesiredPorts(w.rows)
      // Neither part depends on the other.
      ensures faults >= old(faults) + (if removed then 0 else 1) + (if synced then 0 else 1)
      ensures faults == old(faults) ==> removed && synced && deleted == (p.id in old(w).rows)
    {
      removed, deleted := Withdraw(p);
      ghost var w1 := w;
      synced := SyncNft();
      ExternalOnlyPeer(w1, w, p.id);
      OnlyPeerChain(old(w), w1, w, p.id);
    }

    /** `compensate_failed_create`. Reporting `complete` means that nothing of the peer is left. */
    method CompensateFailedCreate(p: Peer) returns (complete: bool)
      requires Good(w) && KnownPeer(w, p) && (p.id in w.rows ==> w.rows[p.id].port == p.port)
      modifies this
      ensures Good(w) && faults >= old(faults) && OnlyPeer(old(w), w, p.id)
      ensures complete ==>
                && p.id in old(w).rows && w.rows == old(w).rows - {p.id}
                && p.id !in w.ifaces
                && w.current == AsksFor(w) && p.id !in w.current.value
                && w.ports == DesiredPorts(w.rows) && p.port !in w.ports
      ensures faults == old(faults) ==> complete == (p.id in old(w).rows)
      // Each part is tried whatever became of the others: one failed call costs the interface or the ports at most.
      ensures faults <= old(faults) + 1 ==> p.id !in w.ifaces || w.ports == DesiredPorts(w.rows)
    {
      var marked := WriteStatus(p.id, Deleting);
      ghost var w1 := w;
      if marked { HiddenRow(w.localAsn, w1.rows, w1.rows - {p.id}, p.id); }
      var removed, deleted, synced := WithdrawAndClose(p);
      OnlyPeerChain(old(w), w1, w, p.id);
      complete := marked && removed && deleted && synced;
      if complete { NothingShown(old(w), w.rows, p); }
    }

    /** Stores a configuration and applies it, as an update and its compensation do. */
    method Install(p: Peer) returns (failed: bool, changed: bool, applied: bool)
      requires Good(w) && KnownPeer(w, p)
      modifies this
      ensures Good(w) && faults >= old(faults) && OnlyPeer(old(w), w, p.id)
      ensures w.rows == old(w).rows || (p.id in old(w).rows
                && w.rows == old(w).rows[p.id := p.(status := Provisioning)])
      ensures failed ==> !changed && !applied && OutsideSame(old(w), w)
      ensures !applied ==> faults > old(faults) || PortTaken(old(w), p.port, p.id)
      ensures !failed ==> changed == (p.id in old(w).rows)
      ensures changed ==> w.rows == old(w).rows[p.id := p.(status := Provisioning)]
      ensures applied ==> p.id in w.ifaces && Configured(w.ifaces[p.id], p) && w.current == AsksFor(w)
      ensures faults == old(faults) && !PortTaken(old(w), p.port, p.id) ==> applied
    {
      failed, changed := WriteDesired(p);
      applied := false;
      if !failed {
        ghost var w1 := w;
        applied := ApplyPeer(p);
        ExternalOnlyPeer(w1, w, p.id);
        OnlyPeerChain(old(w), w1, w, p.id);
      }
    }

    /** `compensate_failed_update`. Reporting `complete` means that the old configuration is back. */
    method CompensateFailedUpdate(prior: Peer) returns (complete: bool)
      requires Good(w) && KnownPeer(w, prior)
      modifies this
      ensures Good(w) && faults >= old(faults) && OnlyPeer(old(w), w, prior.id)
      ensures complete ==>
                && prior.id in old(w).rows && w.rows == old(w).rows[prior.id := prior.(status := Active)]
                && prior.id in w.ifaces && Configured(w.ifaces[prior.id], prior)
                && w.current == AsksFor(w)
                && prior.id in w.current.value && w.current.value[prior.id] == FragmentOf(w.localAsn, prior)
      ensures faults == old(faults) && !PortTaken(old(w), prior.port, prior.id) ==>
                complete == (prior.id in old(w).rows)
      // The row becomes active only with the old configuration in place.
      ensures w.rows == old(w).rows || w.rows == old(w).rows[prior.id := prior.(status := Provisioning)]
              || (prior.id in w.ifaces && Configured(w.ifaces[prior.id], prior) && w.current == AsksFor(w))
    {
      var failed, restored, applied := Install(prior);
      if failed || !applied { return false; }
      ghost var w1 := w;
      var activated := Activate(prior.id);
      OnlyPeerChain(old(w), w1, w, prior.id);
      complete := restored && activated;
      if complete { Restored(old(w), w1, w, prior); }
    }

    /** The last write of an update: external systems go on showing what the table asks for. */
    method Activate(id: nat) returns (activated: bool)
      requires Good(w) && (id in w.rows ==> Wanted(w.rows[id]))
      modifies this
      ensures Good(w) && faults >= old(faults) && OnlyPeer(old(w), w, id)
      ensures w.rows == old(w).rows || (id in old(w).rows
                && w.rows == old(w).rows[id := old(w).rows[id].(status := Active)])
      ensures activated ==> id in old(w).rows && w.rows == old(w).rows[id := old(w).rows[id].(status := Active)]
      ensures w.ifaces == old(w).ifaces && w.current == old(w).current && w.ports == old(w).ports
      ensures AsksFor(w) == AsksFor(old(w)) && DesiredPorts(w.rows) == DesiredPorts(old(w).rows)
      ensures faults == old(faults) ==> activated == (id in old(w).rows)
    {
      if id in w.rows { ActivatedRow(w.localAsn, w.rows, id); }
      activated := WriteStatus(id, Active);
    }

    // ---- requests ----

    /** `update_peer` */
    method UpdatePeer(c: Change) returns (a: Answer, ghost undone: bool)
      requires Good(w) && c.key.asn < U32
      modifies this
      ensures Good(w) && !a.AlreadyExists? && OnlyNamed(old(w), w, c.key)
      ensures a.Done? ==>
                exists n :: n in old(w).rows && KeyOf(old(w).rows[n]) == c.key && old(w).rows[n].status != Deleting
                  && var p := ChangedPeer(old(w).localAsn, old(w).rows[n], c).(status := Active);
                     a.peer == p && w.rows == old(w).rows[n := p] && OnlyPeer(old(w), w, n)
                     && n in w.ifaces && Configured(w.ifaces[n], p) && w.current == AsksFor(w)
      // The answer, the row and the interface carry what the request asks for, and keep the rest of the old row.
      ensures a.Done? ==>
                exists n :: n in old(w).rows && KeyOf(old(w).rows[n]) == c.key
                  && AsChanged(a.peer, old(w).localAsn, old(w).rows[n], c) && a.peer.status == Active
                  && w.rows == old(w).rows[n := a.peer] && n in w.ifaces && Configured(w.ifaces[n], a.peer)
      ensures a.NotFound? ==>
                w == old(w) && forall n :: n in w.rows && KeyOf(w.rows[n]) == c.key ==> w.rows[n].status == Deleting
      ensures a.Refused? ==> faults > old(faults)
      ensures a.Refused? && undone ==> UpdateUndone(old(w), w, c.key)
      // A single failed call leaves nothing, the new row alone, the old configuration, or all but the last write.
      ensures a.Refused? && faults == old(faults) + 1 ==>
                undone || exists n :: n in old(w).rows && KeyOf(old(w).rows[n]) == c.key
                            && var p := ChangedPeer(old(w).localAsn, old(w).rows[n], c);
                               StoredOnly(old(w), w, p) || AllButStatus(old(w), w, p)
    {
      var out := Call(Skip);   // read the row
      if !out.Succeed? { return Refused, true; }
      if !NameTaken(w, c.key) { return NotFound, true; }
      var n :| n in w.rows && KeyOf(w.rows[n]) == c.key;
      if w.rows[n].status == Deleting { return NotFound, true; }
      var desired := ChangedPeer(w.localAsn, w.rows[n], c);
      ChangedAsChanged(w.localAsn, w.rows[n], c);
      var ok;
      ok, undone := Reconfigure(w.rows[n], desired);
      a := if ok then Done(desired.(status := Active)) else Refused;
    }

    /** The rest of `update_peer`, from the new row on. */
    method Reconfigure(prior: Peer, desired: Peer) returns (ok: bool, ghost undone: bool)
      requires Good(w) && prior.id in w.rows && w.rows[prior.id] == prior
      requires KnownPeer(w, desired) && desired.id == prior.id
      requires desired.status == Provisioning && desired.port == prior.port
      modifies this
      ensures Good(w) && OnlyPeer(old(w), w, prior.id)
      ensures ok ==> w.rows == old(w).rows[prior.id := desired.(status := Active)]
                     && prior.id in w.ifaces && Configured(w.ifaces[prior.id], desired.(status := Active))
                     && w.current == AsksFor(w)
      ensures faults >= old(faults) && (faults == old(faults) ==> ok)
      ensures !ok && undone ==> (w.rows == old(w).rows && OutsideSame(old(w), w)) || RolledBack(old(w), w, prior.id)
      ensures !ok && faults == old(faults) + 1 ==>
                undone || StoredOnly(old(w), w, desired) || AllButStatus(old(w), w, desired)
    {
      var n := prior.id;
      OwnPort(w, n);
      var failed, changed, applied := Install(desired);
      if failed { return false, w.rows == old(w).rows; }
      ghost var w1 := w;
      if applied {
        undone := false;
        ok := Activate(n);
        OnlyPeerChain(old(w), w1, w, n);
      } else {
        ok := false;
        OwnPort(w, n);
        undone := CompensateFailedUpdate(prior);
        OnlyPeerChain(old(w), w1, w, n);
        if undone { RolledBackBy(old(w), w1, w, prior); }
      }
    }

    /** `delete_peer` */
    method DeletePeer(key: Key) returns (a: Answer)
      requires Good(w)
      modifies this
      ensures Good(w) && !a.AlreadyExists? && OnlyNamed(old(w), w, key)
      ensures a.Done? ==>
                exists n :: n in old(w).rows && KeyOf(old(w).rows[n]) == key && a.peer == old(w).rows[n]
                  && w.rows == old(w).rows - {n} && n !in w.ifaces && OnlyPeer(old(w), w, n)
                  && w.current == AsksFor(w) && w.ports == DesiredPorts(w.rows)
      ensures a.NotFound? ==> w == old(w) && !NameTaken(w, key)
      ensures a.Refused? ==> faults > old(faults)
      // What a single failed call leaves; RefusedDeleteExactly says when that is the table as it was.
      ensures a.Refused? && faults == old(faults) + 1 ==>
                w == old(w) || RefusedDeleteOf(old(w), w, key)
    {
      var out := Call(Skip);   // read the row
      if !out.Succeed? { return Refused; }
      if !NameTaken(w, key) { return NotFound; }
      var n :| n in w.rows && KeyOf(w.rows[n]) == key;
      var p := w.rows[n];
      var ok := DeleteFound(p);
      a := if ok then Done(p) else Refused;
    }

    /** `delete_peer`, from the row it found. */
    method DeleteFound(p: Peer) returns (ok: bool)
      requires Good(w) && p.id in w.rows && w.rows[p.id] == p
      modifies this
      ensures Good(w) && OnlyPeer(old(w), w, p.id)
      ensures ok ==> w.rows == old(w).rows - {p.id} && p.id !in w.ifaces
                     && w.current == AsksFor(w) && w.ports == DesiredPorts(w.rows)
      ensures faults >= old(faults) && (faults == old(faults) ==> ok)
      ensures !ok && faults == old(faults) + 1 ==> w == old(w) || RefusedDelete(old(w), w, p.id)
    {
      var changed := WriteStatus(p.id, Deleting);
      if !changed { return false; }
      ghost var w1 := w;
      ok := Remove(p);
      OnlyPeerChain(old(w), w1, w, p.id);
      if !ok && faults == old(faults) + 1 { DeleteTakenBack(old(w), w1, w, p.id); }
    }

    /** The rest of `delete_peer`, from the deleting mark on: port, BIRD fragment, interface, row. */
    method Remove(p: Peer) returns (ok: bool)
      requires Good(w) && KnownPeer(w, p) && p.id in w.rows && w.rows[p.id] == p.(status := Deleting)
      modifies this
      ensures Good(w) && OnlyPeer(old(w), w, p.id)
      ensures ok ==> w.rows == old(w).rows - {p.id} && p.id !in w.ifaces
                     && w.current == AsksFor(w) && w.ports == DesiredPorts(w.rows)
      ensures faults >= old(faults) && (faults == old(faults) ==> ok)
      ensures !ok && faults == old(faults) + 1 ==> TakenBack(old(w), w, p.id) || AllButErased(old(w), w, p.id)
    {
      var n := p.id;
      ok := SyncNft();
      ghost var w1 := w;
      ExternalOnlyPeer(old(w), w1, n);
      if ok {
        ok := RemoveOpen(p);
      } else {
        var _ := WriteStatus(n, Active);
      }
      OnlyPeerChain(old(w), w1, w, n);
    }

    /** The same, once the port is closed. */
    method RemoveOpen(p: Peer) returns (ok: bool)
      requires Good(w) && KnownPeer(w, p) && p.id in w.rows && w.rows[p.id] == p.(status := Deleting)
      requires w.ports == DesiredPorts(w.rows)
      modifies this
      ensures Good(w) && OnlyPeer(old(w), w, p.id)
      ensures ok ==> w.rows == old(w).rows - {p.id} && p.id !in w.ifaces
                     && w.current == AsksFor(w) && w.ports == DesiredPorts(w.rows)
      ensures faults >= old(faults) && (faults == old(faults) ==> ok)
      ensures !ok && faults == old(faults) + 1 ==> TakenBack(old(w), w, p.id) || AllButErased(old(w), w, p.id)
    {
      var n := p.id;
      HiddenRow(w.localAsn, w.rows, w.rows - {n}, n);
      var removed;
      removed, ok := Withdraw(p);
      ghost var w1 := w;
      if !removed {
        Reinstate(p);
        OnlyPeerChain(old(w), w1, w, n);
      }
    }

    /** The way back when the removal in `delete_peer` fails. It activates the row whatever it was before. */
    method Reinstate(p: Peer)
      requires Good(w) && KnownPeer(w, p) && p.id in w.rows
      modifies this
      ensures Good(w) && faults >= old(faults) && OnlyPeer(old(w), w, p.id)
      // Nothing outside is touched unless the row is active again.
      ensures OutsideSame(old(w), w) || w.rows == old(w).rows[p.id := old(w).rows[p.id].(status := Active)]
      ensures faults == old(faults) ==>
                && w.rows == old(w).rows[p.id := old(w).rows[p.id].(status := Active)]
                && p.id in w.ifaces && Configured(w.ifaces[p.id], p)
                && w.current == AsksFor(w) && w.ports == DesiredPorts(w.rows)
    {
      var changed := WriteStatus(p.id, Active);
      if changed {
        ghost var w1 := w;
        var _ := Raise(p);
        OnlyPeerChain(old(w), w1, w, p.id);
      }
    }

    /** `create_peer` */
    method CreatePeer(r: Request) returns (a: Answer, ghost undone: bool)
      requires Good(w) && r.key.asn < U32
      modifies this
      ensures Good(w) && SpareOthers(old(w), w, old(w).nextId)
      ensures a.Done? && r.key.asn == old(w).localAsn ==>
                w == Apply(old(w), Issue(r.key)) && a.peer == NewPeer(w.localAsn, old(w).nextId, r, a.peer.port)
                && !Busy(old(w), a.peer.port)
      ensures a.Done? && r.key.asn != old(w).localAsn ==>
                && a.peer == NewPeer(w.localAsn, old(w).nextId, r, a.peer.port).(status := Active)
                && !Busy(old(w), a.peer.port) && !NameTaken(old(w), r.key)
                && Added(old(w), w, a.peer)
      ensures a.Done? ==>
                && AsRequested(a.peer, old(w).localAsn, r) && a.peer.id == old(w).nextId
                && 20_000 <= a.peer.port < 30_000
                && a.peer.status == if r.key.asn == old(w).localAsn then Provisioning else Active
      ensures a.AlreadyExists? ==> NameTaken(old(w), r.key)
      ensures a.Refused? && faults == old(faults) && old(w).nextId < U32 ==>
                forall port :: 20_000 <= port < 30_000 ==> Busy(old(w), port)
      // A refused request that could be undone leaves rows and interfaces alone, and BIRD and the ports too unless
      // they now show what the table asks for; with a single failed call that
      // is every one but an insertion whose reply was lost, which leaves the row for the reconciler.
      ensures !a.Done? && undone ==> w.rows == old(w).rows && w.ifaces == old(w).ifaces
                                     && (OutsideSame(old(w), w) || Shows(w))
      ensures a.AlreadyExists? ==> undone
      ensures a.Refused? && faults <= old(faults) + 1 ==> undone || exists port :: LostInsert(old(w), w, r, port)
    {
      undone := true;
      var out := Call(Skip);   // look for the name
      if !out.Succeed? { return Refused, true; }
      if NameTaken(w, r.key) { return AlreadyExists, true; }
      var reservation, tried := ReservePeer(r);
      match reservation {
        case NameExists => a := AlreadyExists;
        case NoPort => a := Refused;
        case Failed => return Refused, w.rows == old(w).rows;
        case Reserved(p) =>
          if p.asn == w.localAsn { return Done(p), true; }
          var ok;
          ok, undone := SetUpNew(p, old(w), r);
          a := if ok then Done(p.(status := Active)) else Refused;
      }
    }

    /** The rest of `create_peer`, seen from where it started. */
    method SetUpNew(p: Peer, ghost w0: World, ghost r: Request) returns (ok: bool, ghost undone: bool)
      requires Good(w) && Good(w0) && r.key.asn < U32 && p == NewPeer(w0.localAsn, w0.nextId, r, p.port)
      requires w == Apply(Apply(w0, Issue(r.key)), SetRow(Insert, p))
      modifies this
      ensures Good(w) && SpareOthers(w0, w, w0.nextId)
      ensures ok ==> Added(w0, w, p.(status := Active)) && w.localAsn == w0.localAsn
      ensures faults >= old(faults) && (faults == old(faults) ==> ok)
      ensures !ok && undone ==> w.rows == w0.rows && w.ifaces == w0.ifaces && Shows(w)
      ensures !ok && faults == old(faults) + 1 ==> undone
    {
      ReservedRow(w0, r, p.port);
      ok, undone := SetUp(p);
      ReservedSpares(w0, old(w), w, r, p);
      if ok { AddedAfter(w0, old(w), w, r, p); }
      if undone { ReservedTaken(w0, old(w), r, p); }
    }

    /** The rest of `create_peer`, from the reserved row on. */
    method SetUp(p: Peer) returns (ok: bool, ghost undone: bool)
      requires Good(w) && p.id in w.rows && w.rows[p.id] == p && p.status == Provisioning && p.id !in w.ifaces
      modifies this
      ensures Good(w) && OnlyPeer(old(w), w, p.id)
      ensures ok ==> w.rows == old(w).rows[p.id := p.(status := Active)]
                     && p.id in w.ifaces && Configured(w.ifaces[p.id], p)
                     && w.current == AsksFor(w) && w.ports == DesiredPorts(w.rows)
      ensures faults >= old(faults) && (faults == old(faults) ==> ok)
      ensures !ok && undone ==> w.rows == old(w).rows - {p.id} && w.ifaces == old(w).ifaces && Shows(w)
                                && p.id !in w.current.value && p.port !in w.ports
      ensures !ok && faults == old(faults) + 1 ==> undone
    {
      ok := Raise(p);
      ghost var w1 := w;
      if ok {
        ok := Activate(p.id);
        OnlyPeerChain(old(w), w1, w, p.id);
        if ok { return true, false; }
      }
      ghost var w2 := w;
      undone := CompensateFailedCreate(p);
      OnlyPeerChain(old(w), w2, w, p.id);
      if undone { NothingLeft(old(w), w, p.id); }
      return false, undone;
    }

    // ---- the reconciler ----

    /** The branch of `apply_peer_change` for a wanted row. */
    method BringUp(p: Peer) returns (ok: bool)
      requires Good(w) && p.id in w.rows && w.rows[p.id] == p && Wanted(p)
      modifies this
      ensures Good(w) && faults >= old(faults) && OnlyPeer(old(w), w, p.id)
      ensures w.rows == old(w).rows || w.rows == ProcessedRows(old(w).rows, p.id)
      ensures w.ports == old(w).ports
      ensures w.rows != old(w).rows ==> IfaceMatches(w, p.id) && BirdSettled(w)
      ensures ok ==> w.rows == ProcessedRows(old(w).rows, p.id) && Settled(w, p.id) && BirdSettled(w)
      ensures ok ==> w.outbox.Keys == old(w).outbox.Keys + if p.status == Active then {} else {old(w).nextEvent}
      ensures faults == old(faults) ==> ok
    {
      ok := ApplyPeer(p);
      ghost var w1 := w;
      ExternalOnlyPeer(old(w), w1, p.id);
      if ok && p.status != Active {
        ActivatedRow(w.localAsn, w.rows, p.id);
        ok := WriteStatus(p.id, Active);
        OnlyPeerChain(old(w), w1, w, p.id);
      }
    }

    /** The branches for a row that is not wanted, and for no row. */
    method TakeDown(p: Peer) returns (ok: bool)
      requires Good(w) && KnownPeer(w, p) && (p.id in w.rows ==> w.rows[p.id] == p && !Wanted(p))
      modifies this
      ensures Good(w) && faults >= old(faults) && OnlyPeer(old(w), w, p.id)
      ensures w.rows == old(w).rows || w.rows == ProcessedRows(old(w).rows, p.id)
      ensures w.ports == old(w).ports
      ensures w.rows != old(w).rows ==> IfaceMatches(w, p.id) && BirdSettled(w)
      ensures ok ==> w.rows == ProcessedRows(old(w).rows, p.id) && Settled(w, p.id) && BirdSettled(w)
      ensures ok ==> w.outbox.Keys == old(w).outbox.Keys + if Quiet(old(w).rows, p.id) then {} else {old(w).nextEvent}
      ensures faults == old(faults) ==> ok
    {
      ok := RemoveExternal(p);
      ghost var w1 := w;
      ExternalOnlyPeer(old(w), w1, p.id);
      if ok && p.id in w.rows && p.status == Deleting {
        HiddenRow(w.localAsn, w.rows, w.rows - {p.id}, p.id);
        ok := WriteErase(p.id);
        OnlyPeerChain(old(w), w1, w, p.id);
      }
    }

    /** `apply_peer_change`. Success depends on the event only through the peer id: replaying any old
        event brings the peer to what its present row asks for. */
    method ApplyPeerChange(v: Event) returns (ok: bool)
      requires Good(w) && EventOk(w, v)
      modifies this
      ensures Good(w) && faults >= old(faults) && OnlyPeer(old(w), w, v.peer.id)
      ensures w.rows == old(w).rows || w.rows == ProcessedRows(old(w).rows, v.peer.id)
      // The row becomes active or goes, and the ports are touched, only once interface and BIRD are as it asks.
      ensures w.rows != old(w).rows || w.ports != old(w).ports ==> IfaceMatches(w, v.peer.id) && BirdSettled(w)
      ensures ok ==> w.rows == ProcessedRows(old(w).rows, v.peer.id)
      ensures ok ==> Settled(w, v.peer.id) && BirdSettled(w) && w.ports == DesiredPorts(w.rows)
      ensures ok ==> w.outbox.Keys == old(w).outbox.Keys + if Quiet(old(w).rows,
                v.peer.id) then {} else {old(w).nextEvent}
      ensures faults == old(faults) ==> ok
    {
      var n := v.peer.id;
      ok := FollowRow(v.peer);
      if !ok { return; }
      ghost var w1 := w;
      ok := SyncNft();
      ExternalOnlyPeer(w1, w, n);
      OnlyPeerChain(old(w), w1, w, n);
    }

    /** The first part of `apply_peer_change`: what the row asks for, or its absence. */
    method FollowRow(snapshot: Peer) returns (ok: bool)
      requires Good(w) && KnownPeer(w, snapshot)
      modifies this
      ensures Good(w) && faults >= old(faults) && OnlyPeer(old(w), w, snapshot.id)
      ensures w.rows == old(w).rows || w.rows == ProcessedRows(old(w).rows, snapshot.id)
      ensures w.ports == old(w).ports
      ensures w.rows != old(w).rows ==> IfaceMatches(w, snapshot.id) && BirdSettled(w)
      ensures ok ==> w.rows == ProcessedRows(old(w).rows, snapshot.id) && Settled(w, snapshot.id) && BirdSettled(w)
      ensures ok ==> w.outbox.Keys == old(w).outbox.Keys + if Quiet(old(w).rows,
                snapshot.id) then {} else {old(w).nextEvent}
      ensures faults == old(faults) ==> ok
    {
      var n := snapshot.id;
      var out := Call(Skip);   // read the row by id
      if !out.Succeed? { return false; }
      if n in w.rows && Wanted(w.rows[n]) {
        ok := BringUp(w.rows[n]);
      } else {
        ok := TakeDown(if n in w.rows then w.rows[n] else snapshot);
      }
    }

    /** One turn of the loop in `sync_pending_peer_changes`: apply the change, then drop its event. */
    method Process(e: nat) returns (ok: bool)
      requires Good(w) && e in w.outbox
      modifies this
      ensures Good(w) && faults >= old(faults)
      ensures Around(old(w), w, e)
      ensures ok ==> Processed(old(w), w, e)
      // The row becomes active or goes only once interface and BIRD are as it asks.
      ensures w.rows == old(w).rows
              || (w.rows == ProcessedRows(old(w).rows, old(w).outbox[e].peer.id)
                  && IfaceMatches(w, old(w).outbox[e].peer.id) && BirdSettled(w))
      // Each processed event lowers the work left.
      ensures ok ==> Work(w) < old(Work(w))
      ensures faults == old(faults) ==> ok
    {
      var v := w.outbox[e];
      ok := ApplyPeerChange(v);
      OnlyPeerAround(old(w), w, e);
      if !ok { return; }
      DropGood(w, e);
      ProcessedAround(old(w), w, e);
      ProcessedWork(old(w), w, e);
      var out := Call(DropEvent(e));
      ok := out.Succeed?;
    }

    /** `sync_pending_peer_changes`. A failed change keeps its event and does not stop the others. */
    method SyncPending() returns (ok: bool)
      requires Good(w)
      modifies this
      ensures Good(w) && faults >= old(faults)
      ensures faults == old(faults) ==> ok
      // A failed change keeps its own event at most: the others are applied and dropped.
      ensures (w == old(w) && faults > old(faults)) || |old(w).outbox.Keys * w.outbox.Keys| <= faults - old(faults)
      // What is left is new and needs no further status write.
      ensures ok ==> Leftovers(w, map[], old(w).nextEvent)
      ensures ok ==> Work(w) + |old(w).outbox| <= old(Work(w))
      ensures ok && Recorded(old(w)) ==> BirdSettled(w) && forall n :: Settled(w, n)
      ensures ok && AllQuiet(old(w)) ==> w.outbox == map[] && w.rows == old(w).rows
    {
      var out := Call(Skip);   // list the changes
      if !out.Succeed? { return false; }
      ok := VisitChanges(w.outbox);
      if ok { PassEnd(old(w), w); }
    }

    /** The loop over the listed changes. */
    method VisitChanges(changes: map<nat, Event>) returns (ok: bool)
      requires Good(w) && changes == w.outbox
      modifies this
      ensures Good(w) && faults >= old(faults)
      ensures faults == old(faults) ==> ok
      ensures ok ==> Pass(old(w), w, map[])
      ensures |old(w).outbox.Keys * w.outbox.Keys| <= faults - old(faults)
    {
      var todo := changes;
      ok := true;
      PassStart(w);
      KeptEnds(w.outbox, w);
      while todo != map[]
        invariant Good(w) && faults >= old(faults) && Todo(old(w), w, todo)
        invariant faults == old(faults) ==> ok
        invariant ok ==> Pass(old(w), w, todo)
        invariant w.nextEvent >= old(w).nextEvent && |Kept(old(w).outbox, todo, w)| <= faults - old(faults)
        decreases |todo|
      {
        var e := FirstEvent(todo);
        ok := Visit(e, old(w), todo, ok);
        todo := todo - {e};
      }
      KeptEnds(old(w).outbox, w);
    }

    /** One turn of that loop; an earlier failure is remembered. */
    method Visit(e: nat, ghost w0: World, ghost todo: map<nat, Event>, was: bool) returns (ok: bool)
      requires Good(w) && Todo(w0, w, todo) && e in todo && (was ==> Pass(w0, w, todo))
      requires forall d :: d in w0.outbox ==> d < w.nextEvent
      modifies this
      ensures |Kept(w0.outbox, todo - {e}, w)| - |Kept(w0.outbox, todo, old(w))| <= faults - old(faults)
      ensures w.nextEvent >= old(w).nextEvent
      ensures Good(w) && faults >= old(faults) && Todo(w0, w, todo - {e})
      ensures (ok ==> was && Pass(w0, w, todo - {e})) && (was && faults == old(faults) ==> ok)
      ensures Around(old(w), w, e)
      // A turn without a failed call removes its event and settles its peer, whatever failed before.
      ensures faults == old(faults) ==> Processed(old(w), w, e)
      ensures e in w.outbox ==> faults > old(faults)
    {
      ghost var before := w;
      ok := Process(e);
      ok := ok && was;
      PassOn(w0, before, w, todo, e, was, ok);
      KeptStep(w0.outbox, todo, before, w, e);
    }

    /** Two passes without failures empty the outbox: the first finishes every row, the second has nothing
        left to write. */
    method TwoPasses() returns (ok: bool)
      requires Good(w)
      modifies this
      ensures Good(w)
      ensures faults == old(faults) ==> ok
      ensures ok ==> w.outbox == map[]
      ensures ok && Recorded(old(w)) ==> BirdSettled(w) && forall n :: Settled(w, n)
    {
      ok := SyncPending();
      var again := SyncPending();
      ok := ok && again;
    }

    // ---- recovery ----

    /** The first loop of `recover`. */
    method BringAllUp(peers: map<nat, Peer>) returns (ok: bool)
      requires Good(w) && peers == w.rows
      modifies this
      ensures Good(w) && OnlyIfaces(old(w), w)
      ensures old(w).ifaces.Keys <= w.ifaces.Keys <= old(w).ifaces.Keys + Machine.WantedIds(peers)
      ensures forall n :: n in w.ifaces && n !in peers ==> n in old(w).ifaces && w.ifaces[n] == old(w).ifaces[n]
      ensures ok ==> Repair.AllUp(w, peers, Machine.WantedIds(peers))
      ensures faults >= old(faults) && (faults == old(faults) ==> ok)
    {
      var rest := Machine.WantedIds(peers);
      while rest != {}
        invariant rest <= Machine.WantedIds(peers) && faults == old(faults)
        invariant Good(w) && OnlyIfaces(old(w), w)
        invariant old(w).ifaces.Keys <= w.ifaces.Keys <= old(w).ifaces.Keys + Machine.WantedIds(peers)
        invariant forall n :: n in w.ifaces && n !in peers ==> n in old(w).ifaces && w.ifaces[n] == old(w).ifaces[n]
        invariant Repair.AllUp(w, peers, Machine.WantedIds(peers) - rest)
      {
        var n :| n in rest;
        ghost var before := w;
        ok := ApplyWireguard(peers[n]);
        UpStep(before, w, peers, Machine.WantedIds(peers) - rest, n, ok);
        if !ok { return; }
        rest := rest - {n};
      }
      ok := true;
    }

    /** Removes interfaces one by one until a call fails. */
    method DropAll(names: set<nat>) returns (ok: bool)
      requires Good(w)
      modifies this
      ensures Good(w) && Fewer(old(w), w, names)
      ensures ok ==> Invariant.Gone(w, names)
      ensures faults >= old(faults) && (faults == old(faults) ==> ok)
    {
      var rest := names;
      while rest != {}
        invariant rest <= names && faults == old(faults)
        invariant Good(w) && Fewer(old(w), w, names) && Invariant.Gone(w, names - rest)
      {
        var n :| n in rest;
        var out := Call(DropIface(n));
        if !out.Succeed? { return false; }
        rest := rest - {n};
      }
      return true;
    }

    /** One turn of the loop over the recorded deletions. */
    method Purge(v: Event) returns (ok: bool)
      requires Good(w) && v in w.outbox.Values
      modifies this
      ensures Good(w) && Fewer(old(w), w, Strays(old(w)))
      ensures ok ==> Purged(w, v)
      ensures faults >= old(faults) && (ok <==> faults == old(faults))
    {
      var out := Call(Skip);   // read the row by id
      if !out.Succeed? { return false; }
      if v.op == Delete && v.peer.id !in w.rows && v.peer.iface == v.peer.id {
        out := Call(DropIface(v.peer.iface));
        if !out.Succeed? { return false; }
      }
      return true;
    }

    method PurgeNext(e: nat, v: Event, ghost w0: World, ghost rest: map<nat, Event>) returns (ok: bool)
      requires Good(w) && Purging(w0, w, rest) && Fewer(w0, w, Strays(w0)) && e in rest && rest[e] == v
      modifies this
      ensures Good(w) && Fewer(w0, w, Strays(w0)) && (ok ==> Purging(w0, w, rest - {e}))
      ensures faults >= old(faults) && (ok <==> faults == old(faults))
    {
      ghost var before := w;
      ok := Purge(v);
      FewerChain(w0, before, w);
      if ok { PurgeStep(w0, before, w, rest, e); }
    }

    /** The loop over the recorded deletions. */
    method PurgeDeleted() returns (ok: bool)
      requires Good(w)
      modifies this
      ensures Good(w) && Fewer(old(w), w, Strays(old(w)))
      ensures ok ==> forall e :: e in w.outbox ==> Purged(w, w.outbox[e])
      ensures faults >= old(faults) && (faults == old(faults) ==> ok)
    {
      var out := Call(Skip);   // list the changes
      if !out.Succeed? { return false; }
      ghost var w0 := w;
      var rest := w.outbox;
      while rest != map[]
        invariant Good(w) && faults == old(faults) && Fewer(w0, w, Strays(w0))
        invariant Purging(w0, w, rest)
        decreases |rest|
      {
        var e := FirstEvent(rest);
        ok := PurgeNext(e, rest[e], w0, rest);
        if !ok { return; }
        rest := rest - {e};
      }
      return true;
    }

    /** The loop that finishes deletions. */
    method EraseDeleting(peers: map<nat, Peer>) returns (ok: bool)
      requires Good(w) && peers == w.rows
      modifies this
      ensures Good(w) && Repair.Between(peers, w.rows)
      ensures w.ifaces == old(w).ifaces && w.current == old(w).current && w.ports == old(w).ports
      ensures w.localAsn == old(w).localAsn
      ensures ok ==> w.rows == peers - Machine.DeletingIds(peers)
      ensures faults >= old(faults) && (faults == old(faults) ==> ok)
    {
      var rest := Machine.DeletingIds(peers);
      forall n ensures Repair.RowBetween(peers, peers, n) {}
      while rest != {}
        invariant rest <= Machine.DeletingIds(peers) && Good(w) && faults >= old(faults)
        invariant w.rows == peers - (Machine.DeletingIds(peers) - rest) && Repair.Between(peers, w.rows)
        invariant w.ifaces == old(w).ifaces && w.current == old(w).current && w.ports == old(w).ports
        invariant w.localAsn == old(w).localAsn
      {
        var n :| n in rest;
        ghost var before := w;
        ok := WriteErase(n);
        EraseStep(peers, before.rows, w.rows, n);
        if !ok { return; }
        rest := rest - {n};
      }
      ok := true;
    }

    /** The last loop of `recover`. */
    method ActivateAll(peers: map<nat, Peer>) returns (ok: bool)
      requires Good(w) && w.rows == peers - Machine.DeletingIds(peers)
      modifies this
      ensures Good(w) && Repair.Between(peers, w.rows)
      ensures w.ifaces == old(w).ifaces && w.current == old(w).current && w.ports == old(w).ports
      ensures w.localAsn == old(w).localAsn
      ensures ok ==> w.rows == Repair.Recovered(peers)
      ensures faults >= old(faults) && (faults == old(faults) ==> ok)
    {
      var rest := Machine.WantedIds(peers);
      PartiallyEnds(peers);
      while rest != {}
        invariant rest <= Machine.WantedIds(peers) && Good(w) && faults >= old(faults)
        invariant w.rows == Partially(peers, rest) && Repair.Between(peers, w.rows)
        invariant w.ifaces == old(w).ifaces && w.current == old(w).current && w.ports == old(w).ports
        invariant w.localAsn == old(w).localAsn
      {
        var n :| n in rest;
        ok := WriteStatus(n, Active);
        ActivateStep(peers, rest, w.rows, n, ok);
        if !ok { return; }
        rest := rest - {n};
      }
      ok := true;
    }

    /** `sync_bird_configs_for` with a forced reload. */
    method SyncBirdFor(peers: map<nat, Peer>) returns (ok: bool)
      requires Ident(w) && peers == w.rows
      modifies this
      ensures OnlyCurrent(old(w), w)
      ensures ok ==> w.current == AsksFor(w)
      ensures faults >= old(faults) && (faults == old(faults) ==> ok)
    {
      ok := SyncBird();
      if ok {
        var out := Call(Skip);   // reload
        ok := out.Succeed?;
      }
    }

    /** `recover`. Wherever it stops, the table is on the way to the same goal; success reaches it. */
    method Recover() returns (ok: bool)
      requires Good(w)
      modifies this
      ensures Good(w) && Repair.Between(old(w).rows, w.rows)
      // Everything is as the table asks for, but for interfaces that nothing accounts for; there are none of those
      // in any reachable state (NoOrphanInterface).
      ensures ok ==> Cleaned(old(w), w)
      ensures ok && Accounted(old(w)) ==>
                Repair.Repaired(w, old(w).rows) && Repair.PlainlyRepaired(w, old(w).rows)
      // However it ends, no row is erased before its interface is gone, no wanted peer loses its interface, and
      // recovery can be tried again.
      ensures Careful(old(w), w) && (Accounted(old(w)) ==> Accounted(w))
      ensures faults >= old(faults) && (faults == old(faults) ==> ok)
    {
      forall n ensures Repair.RowBetween(w.rows, w.rows, n) {}
      var out := Call(Skip);   // list the rows
      if !out.Succeed? { return false; }
      var peers := w.rows;
      ok := ShowAll(peers);
      if Accounted(old(w)) { StillAccounted(old(w), w, peers); }
      if !ok { return; }
      StillForgotten(old(w), w);
      ok := ClearAndFinish(peers, old(w));
      if ok && Accounted(old(w)) {
        RecoveredAll(old(w), w);
        Repair.RepairedPlainly(w, old(w).rows);
      }
    }

    /** The rest of `recover`, seen from where it started. */
    method ClearAndFinish(peers: map<nat, Peer>, ghost w0: World) returns (ok: bool)
      requires Good(w) && peers == w.rows == w0.rows && Repair.AllUp(w, peers, Machine.WantedIds(peers))
      requires w.ports == DesiredPorts(peers) && w.current == AsksFor(w0) && w.localAsn == w0.localAsn
      requires (forall n :: Forgotten(w, n) <==> Forgotten(w0, n)) && (Accounted(w0) ==> Accounted(w))
      modifies this
      ensures Good(w) && Repair.Between(peers, w.rows) && w.localAsn == w0.localAsn
      ensures ok ==> Cleaned(w0, w)
      ensures Careful(w0, w) && (Accounted(w0) ==> Accounted(w))
      ensures faults >= old(faults) && (faults == old(faults) ==> ok)
    {
      forall n ensures Repair.RowBetween(w.rows, w.rows, n) {}
      ok := Clear(peers);
      ClearedCarefully(w0, old(w), w);
      if !ok { return; }
      ghost var cleared := w;
      ok := FinishRows(peers);
      FinishedCarefully(w0, cleared, w);
      if ok { UpSame(cleared, w, peers, Machine.WantedIds(peers)); }
    }

    /** The first part of `recover`: interfaces, ports and BIRD configuration of the wanted rows. */
    method ShowAll(peers: map<nat, Peer>) returns (ok: bool)
      requires Good(w) && peers == w.rows
      modifies this
      ensures Good(w) && w.rows == peers && w.outbox == old(w).outbox && w.localAsn == old(w).localAsn
      ensures old(w).ifaces.Keys <= w.ifaces.Keys <= old(w).ifaces.Keys + Machine.WantedIds(peers)
      ensures forall n :: n in w.ifaces && n !in peers ==> n in old(w).ifaces && w.ifaces[n] == old(w).ifaces[n]
      ensures ok ==> Repair.AllUp(w, peers, Machine.WantedIds(peers))
                     && w.ports == DesiredPorts(peers) && w.current == AsksFor(w)
      ensures faults >= old(faults) && (faults == old(faults) ==> ok)
    {
      ok := BringAllUp(peers);
      if !ok { return; }
      ghost var w1 := w;
      ok := SyncNft();
      if !ok { return; }
      ok := SyncBirdFor(peers);
      if ok { UpSame(w1, w, peers, Machine.WantedIds(peers)); }
    }

    /** The last part: deletions are finished, and wanted rows become active. */
    method FinishRows(peers: map<nat, Peer>) returns (ok: bool)
      requires Good(w) && peers == w.rows
      modifies this
      ensures Good(w) && Repair.Between(peers, w.rows)
      ensures OutsideSame(old(w), w) && w.localAsn == old(w).localAsn
      ensures ok ==> w.rows == Repair.Recovered(peers)
      ensures faults >= old(faults) && (faults == old(faults) ==> ok)
    {
      ok := EraseDeleting(peers);
      if ok { ok := ActivateAll(peers); }
    }

    /** The middle of `recover`: interfaces of unwanted rows, then managed ones without a wanted row, then
        those of recorded deletions. */
    method Clear(peers: map<nat, Peer>) returns (ok: bool)
      requires Good(w) && peers == w.rows && Repair.AllUp(w, peers, Machine.WantedIds(peers))
      modifies this
      ensures Good(w) && OnlyIfaces(old(w), w) && w.ifaces.Keys <= old(w).ifaces.Keys
      ensures Repair.AllUp(w, peers, Machine.WantedIds(peers))
      ensures ok ==> forall n :: n in w.ifaces <==> n in Machine.WantedIds(peers) || Forgotten(old(w), n)
      ensures faults >= old(faults) && (faults == old(faults) ==> ok)
    {
      ok := DropUnwanted(peers);
      if !ok { return; }
      ghost var w1 := w;
      ok := PurgeDeleted();
      UpKept(w1, w, Strays(w1), peers, Machine.WantedIds(peers));
      if ok { AllCleared(old(w), w1, w); }
    }

    /** The interfaces of unwanted rows, then managed ones without a wanted row. */
    method DropUnwanted(peers: map<nat, Peer>) returns (ok: bool)
      requires Good(w) && peers == w.rows && Repair.AllUp(w, peers, Machine.WantedIds(peers))
      modifies this
      ensures Good(w) && OnlyIfaces(old(w), w) && w.ifaces.Keys <= old(w).ifaces.Keys
      ensures Repair.AllUp(w, peers, Machine.WantedIds(peers))
      ensures ok ==> Swept(old(w), w)
      ensures faults >= old(faults) && (faults == old(faults) ==> ok)
    {
      ok := DropAll(Machine.UnwantedIds(peers));
      UpKept(old(w), w, Machine.UnwantedIds(peers), peers, Machine.WantedIds(peers));
      if !ok { return; }
      var out := Call(Skip);   // list the managed interfaces
      if !out.Succeed? { return false; }
      ghost var w1 := w;
      var names := Machine.ManagedIfaces(w) - Machine.WantedIfaces(peers);
      ok := DropAll(names);
      WantedSpared(w1, peers);
      UpKept(w1, w, names, peers, Machine.WantedIds(peers));
      if ok { SweptBoth(old(w), w1, w); }
    }
  }
}
