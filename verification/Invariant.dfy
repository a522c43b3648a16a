/** What every reachable state satisfies. The central idea: whenever something outside the
    database disagrees with it, an event that will be processed again is still in the outbox. */
module Invariant {
  import opened Peers
  import opened World
  import opened Machine

  /** The event the reconciler has applied and is about to delete. */
  function Retiring(s: State): Option<nat> {
    if Reconciler in s.threads && s.threads[Reconciler].point.DropChange?
    then Some(s.threads[Reconciler].mark) else None
  }

  predicate Live(s: State, e: nat) {
    e in s.w.outbox && Retiring(s) != Some(e)
  }

  ghost predicate Pending(s: State, n: nat) {
    exists e :: Live(s, e) && s.w.outbox[e].peer.id == n
  }

  ghost predicate PendingDelete(s: State, n: nat) {
    exists e :: Live(s, e) && s.w.outbox[e].peer.id == n && s.w.outbox[e].op == Delete
  }

  ghost predicate Mutex(s: State) {
    forall u, v, lock :: u in s.threads && v in s.threads && Holds(s.threads[u], lock) && Holds(s.threads[v], lock)
                         ==> u == v
  }

  ghost predicate NoOrphan(s: State) {
    forall n :: n in s.w.ifaces ==> n in s.w.rows || PendingDelete(s, n)
  }

  ghost predicate Covered(s: State) {
    && (forall n :: Settled(s.w, n) || Pending(s, n))
    && (BirdSettled(s.w) || exists e :: Live(s, e))
  }

  // ---- threads ----

  predicate ApiSite(site: Site) {
    !ChangeSite(site) && !RecoverSite(site) && site != TickNft
  }

  /** Removal never runs nftables calls. */
  predicate Fits(sub: Sub, site: Site) {
    RemoveSite(site) ==> !NftSub(sub)
  }

  predicate ChangeSite(site: Site) {
    site == ChangeApply || site == ChangeRemove || site == ChangeNft
  }

  predicate RecoverSite(site: Site) {
    site == RvApply || site == RvNft || site == RvBird
  }

  predicate ArmedAt(p: Point) {
    || (p.In? && ApiSite(p.site))
    || p.CreateActivate? || p.CompMark? || p.CompErase?
    || p.UpdateActivate? || p.CompStore? || p.CompActivate?
    || p.UndeleteQuiet? || p.UndeleteReapply? || p.Erase?
  }

  /** A request thread after its first row write. */
  predicate Armed(t: Thread) {
    ArmedAt(t.point)
  }

  predicate PeerOk(w: World, p: Peer, key: Key) {
    p.id in w.keys && w.keys[p.id] == key && KeyOf(p) == key && p.iface == p.id
  }

  /** The thread's event is still to be processed. */
  predicate Marked(s: State, t: Thread) {
    Live(s, t.mark) && s.w.outbox[t.mark].peer.id == t.target.id
  }

  ghost predicate ApiInv(s: State, t: Thread) {
    && ApiTask(t.task) && t.key == TaskKey(t.task)
    && (t.point.In? ==> ApiSite(t.point.site) && Fits(t.point.sub, t.point.site))
    && (Armed(t) ==>
          && PeerOk(s.w, t.target, t.key) && Marked(s, t)
          && (t.target.id in s.w.rows || PendingDelete(s, t.target.id)))
    && (Armed(t) && t.task.UpdateTask? ==> t.prior.id == t.target.id && PeerOk(s.w, t.prior, t.key))
    && (t.point.Erase? || t.point.CompErase? ==> t.target.id !in s.w.ifaces)
    && (t.point.Probe? || t.point.Reserve? || t.point.Recheck? || t.point.MarkDeleting? || t.point.StoreDesired?
        ==> PeerOk(s.w, t.target, t.key))
    && (t.point.StoreDesired? ==> t.prior.id == t.target.id && PeerOk(s.w, t.prior, t.key))
  }

  // The reconciler's knowledge. "Other" events are those it will not delete now.

  ghost predicate Other(w: World, n: nat, mark: nat) {
    exists e :: e in w.outbox && e != mark && w.outbox[e].peer.id == n
  }

  ghost predicate OtherDelete(w: World, n: nat, mark: nat) {
    exists e :: e in w.outbox && e != mark && w.outbox[e].peer.id == n && w.outbox[e].op == Delete
  }

  ghost predicate OtherAny(w: World, mark: nat) {
    exists e :: e in w.outbox && e != mark
  }

  ghost predicate RowFact(w: World, t: Thread) {
    || (if t.found then t.target.id in w.rows && w.rows[t.target.id] == t.target else t.target.id !in w.rows)
    || Other(w, t.target.id, t.mark)
  }

  ghost predicate DeleteFact(w: World, t: Thread) {
    t.target.id in w.rows || OtherDelete(w, t.target.id, t.mark)
  }

  ghost predicate SnapFact(w: World, t: Thread) {
    t.snap == w.rows || OtherAny(w, t.mark)
  }

  ghost predicate CurrentFact(w: World, t: Thread) {
    BirdSettled(w) || OtherAny(w, t.mark)
  }

  predicate IfaceFact(w: World, t: Thread) {
    t.target.id in w.ifaces && Configured(w.ifaces[t.target.id], t.target)
  }

  ghost predicate DoneFact(w: World, t: Thread) {
    && (Settled(w, t.target.id) || Other(w, t.target.id, t.mark))
    && CurrentFact(w, t)
    && (t.target.id in w.ifaces ==> DeleteFact(w, t))
  }

  ghost predicate ApplyFacts(w: World, t: Thread, sub: Sub) {
    && t.found && Wanted(t.target) && RowFact(w, t) && DeleteFact(w, t)
    && !NftSub(sub) && !sub.DropLink?
    && (sub.Configure? || sub.AddAddress? || BirdSub(sub) ==>
          && t.target.id in w.ifaces
          && w.ifaces[t.target.id].mtu == Some(t.target.mtu)
          && w.ifaces[t.target.id].alias == Some(t.target.id))
    && (sub.AddAddress? || BirdSub(sub) ==>
          w.ifaces[t.target.id].wg == Some(WgConf(t.target.port, t.target.pubkey)))
    && (BirdSub(sub) ==> IfaceFact(w, t))
    && (BirdHasSnap(sub) ==> SnapFact(w, t))
    && (sub.BirdReload? ==> CurrentFact(w, t))
  }

  ghost predicate RemoveFacts(w: World, t: Thread, sub: Sub) {
    && (t.found ==> !Wanted(t.target)) && RowFact(w, t)
    && (BirdSub(sub) || sub.DropLink?)
    && (BirdHasSnap(sub) ==> SnapFact(w, t))
    && (sub.BirdReload? || sub.DropLink? ==> CurrentFact(w, t))
  }

  /** The event being worked on is still in the outbox and names the target. */
  ghost predicate Claim(w: World, t: Thread) {
    && t.mark in w.outbox && t.mark !in t.events
    && w.outbox[t.mark].peer.id == t.target.id && PeerOk(w, t.target, t.key)
  }

  ghost predicate Todo(w: World, t: Thread) {
    t.task.ReconcileTask? && forall e :: e in t.events ==> e in w.outbox && w.outbox[e] == t.events[e]
  }

  ghost predicate ActivateFacts(w: World, t: Thread) {
    t.found && Wanted(t.target) && RowFact(w, t) && DeleteFact(w, t) && IfaceFact(w, t) && CurrentFact(w, t)
  }

  ghost predicate EraseFacts(w: World, t: Thread) {
    t.found && RowFact(w, t) && CurrentFact(w, t) && t.target.id !in w.ifaces
  }

  ghost predicate InFacts(w: World, t: Thread, sub: Sub, site: Site) {
    && ChangeSite(site)
    && (site == ChangeApply ==> ApplyFacts(w, t, sub))
    && (site == ChangeRemove ==> RemoveFacts(w, t, sub))
    && (site == ChangeNft ==> NftSub(sub) && DoneFact(w, t))
  }

  predicate ReconcilePoint(p: Point) {
    p.NextChange? || p.WantPeer? || p.ReadById? || p.ChangeActivate? || p.ChangeErase? || p.DropChange? || p.In?
  }

  ghost predicate ReconcilerInv(s: State, t: Thread) {
    && Todo(s.w, t) && ReconcilePoint(t.point)
    && (!t.point.NextChange? ==> Claim(s.w, t))
    && (t.point.WantPeer? || t.point.ReadById? ==> !t.found)
    && (t.point.ChangeActivate? ==> ActivateFacts(s.w, t))
    && (t.point.ChangeErase? ==> EraseFacts(s.w, t))
    && (t.point.In? ==> InFacts(s.w, t, t.point.sub, t.point.site))
  }

  // Recovery works on the row list it read first. Nothing removes events meanwhile.

  ghost predicate Touched(w: World, n: nat) {
    exists e :: e in w.outbox && w.outbox[e].peer.id == n
  }

  ghost predicate DeleteRecorded(w: World, n: nat) {
    exists e :: e in w.outbox && w.outbox[e].peer.id == n && w.outbox[e].op == Delete
  }

  ghost predicate SnapInv(w: World, snap: map<nat, Peer>) {
    && (forall n :: n in snap ==> PeerOk(w, snap[n], KeyOf(snap[n])) && snap[n].id == n)
    && (forall n :: n in snap ==> n in w.rows || DeleteRecorded(w, n))
    && (forall n :: SameRow(w, snap, n) || Touched(w, n))
  }

  predicate SameRow(w: World, snap: map<nat, Peer>, n: nat) {
    (n in w.rows <==> n in snap) && (n in snap ==> w.rows[n] == snap[n])
  }

  predicate Stray(w: World, snap: map<nat, Peer>, n: nat) {
    n in w.ifaces && n !in snap
  }

  /** An interface without a row has a DELETE event that recovery will still see. */
  ghost predicate StraysRecorded(w: World, snap: map<nat, Peer>) {
    forall n :: Stray(w, snap, n) ==> n !in w.rows && DeleteRecorded(w, n)
  }

  predicate DeletionOf(v: Event, n: nat) {
    v.op == Delete && v.peer.id == n
  }

  ghost predicate StraysListed(w: World, t: Thread) {
    forall n :: Stray(w, t.snap, n) ==> n !in w.rows && exists e :: e in t.events && DeletionOf(t.events[e], n)
  }

  ghost predicate NoStrays(w: World, snap: map<nat, Peer>) {
    forall n :: !Stray(w, snap, n)
  }

  predicate Gone(w: World, ids: set<nat>) {
    forall n :: n in ids ==> n !in w.ifaces
  }

  ghost predicate AllTouched(w: World, ids: set<nat>) {
    forall n :: n in ids ==> Touched(w, n)
  }

  predicate CurrentIs(w: World, snap: map<nat, Peer>) {
    w.current == Some(DesiredGeneration(w.localAsn, snap))
  }

  /** BIRD shows the snapshot and the interfaces of unwanted rows are gone. */
  predicate Cleared(w: World, snap: map<nat, Peer>) {
    CurrentIs(w, snap) && Gone(w, UnwantedIds(snap))
  }

  /** What holds at each point of recovery, besides SnapInv. */
  ghost predicate Progress(w: World, t: Thread) {
    match t.point
    case RvApplyNext => t.ids <= WantedIds(t.snap) && StraysRecorded(w, t.snap)
    case In(sub, RvApply) =>
      && t.ids <= WantedIds(t.snap) && StraysRecorded(w, t.snap)
      && !BirdSub(sub) && !NftSub(sub) && !sub.DropLink?
      && t.target.id in t.snap && t.target == t.snap[t.target.id] && Wanted(t.target)
    case In(sub, RvNft) => NftSub(sub) && !sub.NftList? && StraysRecorded(w, t.snap)
    case In(sub, RvBird) =>
      BirdSub(sub) && !sub.BirdList? && StraysRecorded(w, t.snap) && (sub.BirdReload? ==> CurrentIs(w, t.snap))
    case RvDropNext =>
      && CurrentIs(w, t.snap) && StraysRecorded(w, t.snap)
      && t.ids <= UnwantedIds(t.snap) && Gone(w, UnwantedIds(t.snap) - t.ids)
    case RvScan => Cleared(w, t.snap) && StraysRecorded(w, t.snap)
    case RvSweep => Cleared(w, t.snap) && StraysRecorded(w, t.snap)
    case RvListChanges => Cleared(w, t.snap) && StraysRecorded(w, t.snap)
    case RvPurge =>
      Cleared(w, t.snap) && StraysListed(w, t) && forall e :: e in t.events ==> EventOk(w, t.events[e])
    case RvEraseNext =>
      && Cleared(w, t.snap) && NoStrays(w, t.snap)
      && t.ids <= DeletingIds(t.snap) && AllTouched(w, DeletingIds(t.snap) - t.ids)
    case RvActivateNext =>
      && Cleared(w, t.snap) && NoStrays(w, t.snap) && AllTouched(w, DeletingIds(t.snap))
      && t.ids <= WantedIds(t.snap) && AllTouched(w, WantedIds(t.snap) - t.ids)
    case _ => false
  }

  ghost predicate RecoveryInv(s: State, t: Thread) {
    t.task.RecoverTask? && (t.point.RvList? || (SnapInv(s.w, t.snap) && Progress(s.w, t)))
  }

  ghost predicate ThreadInv(s: State, tid: Tid, t: Thread) {
    && ValidTask(t.task)
    && match tid
       case Api(_) => ApiInv(s, t)
       case Reconciler => ReconcilerInv(s, t)
       case Ticker => t.task.TickTask? && t.point.In? && t.point.site == TickNft && NftSub(t.point.sub)
       case Recovery => RecoveryInv(s, t)
  }

  ghost predicate Phases(s: State) {
    match s.phase
    case Down => s.threads == map[]
    case Recovering => s.threads.Keys == {Recovery}
    case Serving => Recovery !in s.threads
  }

  ghost predicate Inv(s: State) {
    && Ident(s.w) && Unique(s.w)
    && Phases(s)
    && Mutex(s)
    && NoOrphan(s)
    && (s.phase == Serving ==> Covered(s))
    && (forall tid :: tid in s.threads ==> ThreadInv(s, tid, s.threads[tid]))
  }

  // ---- what a thread may do to the world ----

  ghost predicate CanTouch(s: State, tid: Tid) {
    || tid == Recovery
    || (&& tid in s.threads
        && var t := s.threads[tid];
        && PeerOk(s.w, t.target, t.key) && InCritical(t) && Marked(s, t))
  }

  ghost predicate Allowed(s: State, tid: Tid, eff: Eff) {
    match eff
    case Skip => true
    case SetRow(op, p) =>
      && op != Delete
      && PeerOk(s.w, p, KeyOf(p))
      && (forall m :: m in s.w.rows && m != p.id ==> KeyOf(s.w.rows[m]) != KeyOf(p) && s.w.rows[m].port != p.port)
    case EraseRow(n) => n in s.w.rows
    case Issue(_) => true
    case SetIface(name, _) =>
      && tid in s.threads && CanTouch(s, tid)
      && s.threads[tid].target.id in s.w.keys
      && name == s.threads[tid].target.id
      && (s.threads[tid].target.id in s.w.rows || PendingDelete(s, s.threads[tid].target.id))
    case DropIface(name) =>
      tid == Recovery || (CanTouch(s, tid) && tid in s.threads && name == s.threads[tid].target.id)
    case SetCurrent(_) => CanTouch(s, tid)
    case SetPorts(_) => true
    case DropEvent(e) => tid == Reconciler && tid in s.threads && Retiring(s) == Some(e)
    case SetDevices(_) => true
  }
}
