/** Runs in which nobody but the service writes rows: interfaces always have their row, ports never
    move, and every row satisfies the request rules. */
module ApiOnly {
  import opened Peers
  import opened World
  import opened Machine
  import opened Invariant
  import opened Stability
  import SystemProof
  import ReconcilerProof
  import RecoveryProof

  predicate Holding(w: World, p: Peer) {
    p.id in w.rows && w.rows[p.id].port == p.port
  }

  predicate Sane(w: World, p: Peer) {
    p.asn != w.localAsn && p.localLl != p.remoteLl && 20_000 <= p.port < 30_000
  }

  predicate RowsSane(w: World) {
    forall n :: n in w.rows ==> Sane(w, w.rows[n])
  }

  predicate IfacePorts(w: World) {
    forall n :: n in w.ifaces ==>
      n in w.rows && (w.ifaces[n].wg.Some? ==> w.ifaces[n].wg.value.port == w.rows[n].port)
  }

  /** Between reading its row and giving up the peer lock, with the row still in place. */
  predicate Owning(t: Thread) {
    if ApiTask(t.task) then
      (Armed(t) && !(t.point.In? && t.point.site == CompNft)) || t.point.MarkDeleting? || t.point.StoreDesired?
    else
      t.task.ReconcileTask? && t.found &&
      (t.point.ChangeActivate? || t.point.ChangeErase?
       || (t.point.In? && (t.point.site == ChangeApply || t.point.site == ChangeRemove)))
  }

  predicate Updating(t: Thread) {
    t.task.UpdateTask? && (Armed(t) || t.point.StoreDesired?)
  }

  predicate Scanning(t: Thread) {
    t.task.CreateTask? && (t.point.Probe? || t.point.Reserve? || t.point.Recheck?)
  }

  ghost predicate Fact(w: World, t: Thread) {
    && (Owning(t) ==> Holding(w, t.target))
    && (Updating(t) ==> Holding(w, t.prior) && Sane(w, t.prior))
    && (t.task.UpdateTask? && t.point.StoreDesired? ==> Sane(w, t.target))
    && (Scanning(t) && t.key.asn != w.localAsn ==> t.target.localLl != t.target.remoteLl)
    && (Scanning(t) && t.point.Reserve? ==> 20_000 <= t.target.port < 30_000)
    && (ApiTask(t.task) && t.point.In? && t.point.site == CompNft ==> NftSub(t.point.sub))
    && (t.task.RecoverTask? && (t.point.RvApplyNext? || (t.point.In? && t.point.site == RvApply)) ==>
          forall n :: n in t.snap ==> Holding(w, t.snap[n]))
  }

  ghost predicate ApiInvariant(s: State) {
    s.pristine ==>
      && RowsSane(s.w) && IfacePorts(s.w)
      && forall tid :: tid in s.threads ==> Fact(s.w, s.threads[tid])
  }

  /** The thread inside whose critical section row n is. */
  ghost predicate Locked(s: State, tid: Tid, n: nat) {
    tid in s.threads && InCritical(s.threads[tid]) && PeerOk(s.w, s.threads[tid].target, s.threads[tid].key)
    && s.threads[tid].target.id == n
  }

  /** Effects in such runs: a row keeps its port, it is erased only after its interface, and an
      interface is given its row's port. */
  ghost predicate Proper(s: State, tid: Tid, eff: Eff) {
    match eff
    case SetRow(op, p) =>
      Sane(s.w, p) && (if p.id in s.w.rows then s.w.rows[p.id].port == p.port else op == Insert)
    case EraseRow(n) => n !in s.w.ifaces && (tid == Recovery || Locked(s, tid, n))
    case SetIface(n, i) => n in s.w.rows && (i.wg.Some? ==> i.wg.value.port == s.w.rows[n].port)
    case _ => true
  }

  // ---- what an effect leaves intact ----

  lemma WorldKept(s: State, tid: Tid, eff: Eff)
    requires RowsSane(s.w) && IfacePorts(s.w) && Proper(s, tid, eff)
    ensures RowsSane(Apply(s.w, eff)) && IfacePorts(Apply(s.w, eff))
  {
  }

  /** A row survives everything but its own erasure. */
  lemma HoldingKept(s: State, tid: Tid, eff: Eff, p: Peer)
    requires Proper(s, tid, eff) && Holding(s.w, p) && (eff.EraseRow? ==> eff.id != p.id)
    ensures Holding(Apply(s.w, eff), p)
  {
  }

  lemma FactKept(s: State, tid: Tid, eff: Eff, t: Thread)
    requires Proper(s, tid, eff) && Fact(s.w, t)
    requires eff.EraseRow? && (Owning(t) || Updating(t)) ==> eff.id != t.target.id && (Updating(t) ==>
              eff.id != t.prior.id)
    requires eff.EraseRow? ==> !t.task.RecoverTask?
    ensures Fact(Apply(s.w, eff), t)
  {
    if Owning(t) { HoldingKept(s, tid, eff, t.target); }
    if Updating(t) { HoldingKept(s, tid, eff, t.prior); }
  }

  lemma OtherFactKept(s: State, tid: Tid, eff: Eff, u: Tid)
    requires Inv(s) && tid in s.threads && u in s.threads && u != tid
    requires Proper(s, tid, eff) && Fact(s.w, s.threads[u])
    ensures Fact(Apply(s.w, eff), s.threads[u])
  {
    var t := s.threads[u];
    NoRecovery(s, tid, u);
    if eff.EraseRow? && (Owning(t) || Updating(t)) {
      OwnerLocks(s, u);
      Disjoint(s, tid, u);
    }
    FactKept(s, tid, eff, t);
  }

  lemma NoRecovery(s: State, tid: Tid, u: Tid)
    requires Inv(s) && tid in s.threads && u in s.threads && u != tid
    ensures tid != Recovery && u != Recovery && !s.threads[u].task.RecoverTask?
  {
    assert ThreadInv(s, u, s.threads[u]);
  }

  lemma OwnerLocks(s: State, u: Tid)
    requires Inv(s) && u in s.threads && (Owning(s.threads[u]) || Updating(s.threads[u]))
    ensures var t := s.threads[u];
            InCritical(t) && PeerOk(s.w, t.target, t.key) && (Updating(t) ==> t.prior.id == t.target.id)
  {
    assert ThreadInv(s, u, s.threads[u]);
  }

  // ---- what each action does ----

  ghost predicate Fine(s: State, tid: Tid, r: (Eff, Cont)) {
    Proper(s, tid, r.0) && (r.1.Go? ==> Fact(Apply(s.w, r.0), r.1.t))
  }

  ghost predicate Acts(s: State, tid: Tid, t: Thread) {
    && Ident(s.w) && tid in s.threads && s.threads[tid] == t
    && RowsSane(s.w) && IfacePorts(s.w) && Fact(s.w, t)
  }

  lemma StatusFine(s: State, tid: Tid, id: nat, status: Status, out: Outcome)
    requires Ident(s.w) && RowsSane(s.w)
    ensures Proper(s, tid, StatusWrite(s.w, id, status, out))
  {
  }

  /** The same thread further on, owning no more than before. */
  predicate Continues(t: Thread, t': Thread) {
    && t'.task == t.task && t'.target == t.target && t'.prior == t.prior && t'.key == t.key
    && (Owning(t') ==> Owning(t)) && (Updating(t') ==> Updating(t))
    && !t'.point.StoreDesired? && !Scanning(t')
    && (ApiTask(t'.task) && t'.point.In? && t'.point.site == CompNft ==> NftSub(t'.point.sub))
    && !t'.task.RecoverTask?
  }

  lemma ContinueFine(s: State, tid: Tid, eff: Eff, t: Thread, t': Thread)
    requires Proper(s, tid, eff) && Fact(s.w, t) && Continues(t, t')
    requires eff.EraseRow? ==> !Owning(t') && !Updating(t')
    ensures Fact(Apply(s.w, eff), t')
  {
    if Owning(t') { HoldingKept(s, tid, eff, t.target); }
    if Updating(t') { HoldingKept(s, tid, eff, t.prior); }
  }

  lemma TakeIdFine(s: State, tid: Tid, t: Thread, out: Outcome)
    requires Acts(s, tid, t) && t.task.CreateTask? && ValidTask(t.task) && ApiInv(s, t) && t.point.TakeId?
    ensures Fine(s, tid, RunCreate(s.w, t, out))
  {
    if t.key.asn != s.w.localAsn && AsnLinkLocal(s.w.localAsn) == AsnLinkLocal(t.key.asn) {
      AsnLinkLocalInjective(s.w.localAsn, t.key.asn);
    }
  }

  lemma ReserveFine(s: State, tid: Tid, t: Thread, out: Outcome)
    requires Acts(s, tid, t) && t.task.CreateTask? && ValidTask(t.task) && ApiInv(s, t) && t.point.Reserve?
    ensures Fine(s, tid, RunCreate(s.w, t, out))
  {
  }

  lemma ScanFine(s: State, tid: Tid, t: Thread, out: Outcome)
    requires Acts(s, tid, t) && t.task.CreateTask? && ValidTask(t.task) && ApiInv(s, t)
    requires !t.point.In? && !t.point.WantPeer? && !Armed(t) && !t.point.TakeId? && !t.point.Reserve?
    ensures Fine(s, tid, RunCreate(s.w, t, out))
  {
    ScanGoes(s.w, t, out);
  }

  lemma ScanGoes(w: World, t: Thread, out: Outcome)
    requires w.localAsn < U32 && t.task.CreateTask? && ValidTask(t.task)
    requires !t.point.In? && !t.point.WantPeer? && !Armed(t) && !t.point.TakeId? && !t.point.Reserve?
    ensures var (eff, k) := RunCreate(w, t, out);
            && eff.Skip?
            && (k.Go? ==> !k.t.point.In? && !Armed(k.t) && k.t.key == t.key && k.t.task == t.task)
            && (k.Go? && Scanning(k.t) ==> Scanning(t) && k.t.target.localLl == t.target.localLl
                                           && k.t.target.remoteLl == t.target.remoteLl)
            && (k.Go? && k.t.point.Reserve? ==> 20_000 <= k.t.target.port < 30_000)
  {
  }

  lemma CreateFine(s: State, tid: Tid, t: Thread, out: Outcome)
    requires Acts(s, tid, t) && t.task.CreateTask? && ValidTask(t.task) && ApiInv(s, t)
    requires t.point.CreateActivate? || t.point.CompMark?
    ensures Fine(s, tid, RunCreate(s.w, t, out))
  {
    var (eff, k) := RunCreate(s.w, t, out);
    var status := if t.point.CompMark? then Deleting else Active;
    CreateWrites(s.w, t, status, out);
    StatusFine(s, tid, t.target.id, status, out);
    if k.Go? { ContinueFine(s, tid, eff, t, k.t); }
  }

  lemma CreateWrites(w: World, t: Thread, status: Status, out: Outcome)
    requires w.localAsn < U32 && t.task.CreateTask? && t.task.request.key.asn < U32
    requires (t.point.CreateActivate? && status == Active) || (t.point.CompMark? && status == Deleting)
    ensures var (eff, k) := RunCreate(w, t, out);
            && eff == StatusWrite(w, t.target.id, status, out)
            && (k.Go? ==> Continues(t, k.t))
  {
  }

  lemma CompEraseFine(s: State, tid: Tid, t: Thread, out: Outcome)
    requires Acts(s, tid, t) && t.task.CreateTask? && ValidTask(t.task) && ApiInv(s, t) && t.point.CompErase?
    ensures Fine(s, tid, RunCreate(s.w, t, out))
  {
    ErasesRow(s.w, t, out);
    OwnErase(s, tid, t, out);
  }

  lemma ErasesRow(w: World, t: Thread, out: Outcome)
    requires w.localAsn < U32 && t.task.CreateTask? && t.task.request.key.asn < U32 && t.point.CompErase?
    ensures RunCreate(w, t, out) == (EraseWrite(w, t.target.id, out), Go(t.(point := In(NftList, CompNft))))
  {
  }

  lemma OwnErase(s: State, tid: Tid, t: Thread, out: Outcome)
    requires Acts(s, tid, t) && t.task.CreateTask? && ApiInv(s, t) && t.point.CompErase?
    ensures Fine(s, tid, (EraseWrite(s.w, t.target.id, out), Go(t.(point := In(NftList, CompNft)))))
  {
  }

  lemma ReadOldFine(s: State, tid: Tid, t: Thread, out: Outcome)
    requires Acts(s, tid, t) && t.task.UpdateTask? && ValidTask(t.task) && ApiInv(s, t) && t.point.ReadOld?
    ensures Fine(s, tid, RunUpdate(s.w, t, out))
  {
    var (eff, k) := RunUpdate(s.w, t, out);
    if k.Go? && AsnLinkLocal(s.w.localAsn) == AsnLinkLocal(t.key.asn) {
      AsnLinkLocalInjective(s.w.localAsn, t.key.asn);
    }
  }

  lemma UpdateFine(s: State, tid: Tid, t: Thread, out: Outcome)
    requires Acts(s, tid, t) && t.task.UpdateTask? && ValidTask(t.task) && ApiInv(s, t)
    requires t.point.StoreDesired? || (!t.point.In? && Armed(t))
    ensures Fine(s, tid, RunUpdate(s.w, t, out))
  {
    if t.point.StoreDesired? || t.point.CompStore? { StoreFine(s, tid, t, out); }
    else { StatusFine(s, tid, t.target.id, Active, out); }
  }

  lemma StoreFine(s: State, tid: Tid, t: Thread, out: Outcome)
    requires Acts(s, tid, t) && t.task.UpdateTask? && ValidTask(t.task) && ApiInv(s, t)
    requires t.point.StoreDesired? || t.point.CompStore?
    ensures Fine(s, tid, RunUpdate(s.w, t, out))
  {
    var (eff, k) := RunUpdate(s.w, t, out);
    if k.Go? {
      HoldingKept(s, tid, eff, t.target);
      HoldingKept(s, tid, eff, t.prior);
    }
  }

  lemma DeleteFine(s: State, tid: Tid, t: Thread, out: Outcome)
    requires Acts(s, tid, t) && t.task.DeleteTask? && ApiInv(s, t) && !t.point.In? && !t.point.WantPeer?
    ensures Fine(s, tid, RunDelete(s.w, t, out))
  {
    if t.point.Erase? { DeleteEraseFine(s, tid, t, out); }
    else if t.point.ReadVictim? { ReadVictimFine(s, tid, t, out); }
    else { DeleteStatusFine(s, tid, t, out); }
  }

  lemma DeleteEraseFine(s: State, tid: Tid, t: Thread, out: Outcome)
    requires Acts(s, tid, t) && t.task.DeleteTask? && ApiInv(s, t) && t.point.Erase?
    ensures Fine(s, tid, RunDelete(s.w, t, out))
  {
  }

  lemma ReadVictimFine(s: State, tid: Tid, t: Thread, out: Outcome)
    requires Acts(s, tid, t) && t.task.DeleteTask? && t.point.ReadVictim?
    ensures Fine(s, tid, RunDelete(s.w, t, out))
  {
  }

  lemma DeleteStatusFine(s: State, tid: Tid, t: Thread, out: Outcome)
    requires Acts(s, tid, t) && t.task.DeleteTask? && ApiInv(s, t) && !t.point.In? && !t.point.WantPeer?
    requires !t.point.Erase? && !t.point.ReadVictim?
    ensures Fine(s, tid, RunDelete(s.w, t, out))
  {
    var (eff, k) := RunDelete(s.w, t, out);
    StatusFine(s, tid, t.target.id, if t.point.MarkDeleting? then Deleting else Active, out);
    if k.Go? { HoldingKept(s, tid, eff, t.target); }
  }

  /** The shared procedures work on the target and change no rows. */
  predicate Shaped(t: Thread, r: (Eff, Cont)) {
    && (r.0.Skip? || r.0.SetCurrent? || r.0.SetPorts? || r.0.SetIface? || r.0.DropIface?)
    && (r.1.Go? ==> Continues(t, r.1.t))
  }

  predicate AtSite(t: Thread, site: Site) {
    && t.point.In? && t.point.site == site
    && if ApiTask(t.task) then ApiSite(site)
       else if t.task.ReconcileTask? then ChangeSite(site) else t.task.TickTask? && site == TickNft
  }

  lemma ReturnContinues(t: Thread, site: Site, ok: bool)
    requires AtSite(t, site)
    ensures Return(t, site, ok).Go? ==> Continues(t, Return(t, site, ok).t)
  {
  }

  lemma LinkShaped(w: World, t: Thread, sub: Sub, site: Site, out: Outcome)
    requires AtSite(t, site) && t.point.sub == sub && (site == CompNft ==> NftSub(sub))
    ensures !NftSub(sub) && !BirdSub(sub) ==> Shaped(t, RunLink(w, t, sub, site, out))
  {
    if !NftSub(sub) && !BirdSub(sub) {
      if sub.DropLink? { ReturnContinues(t, site, true); } else { NextContinues(t, sub, site); }
      ReturnContinues(t, site, false);
    }
  }

  lemma NextContinues(t: Thread, sub: Sub, site: Site)
    requires AtSite(t, site) && t.point.sub == sub && site != CompNft
    ensures Continues(t, t.(point := LinkNext(sub, site))) && Continues(t, t.(point := In(SetLink, site)))
  {
  }

  lemma BirdDoneContinues(t: Thread, site: Site)
    requires AtSite(t, site) && site != CompNft
    ensures BirdDone(t, site).Go? ==> Continues(t, BirdDone(t, site).t)
  {
    ReturnContinues(t, site, true);
  }

  lemma BirdShaped(w: World, t: Thread, sub: Sub, site: Site, out: Outcome)
    requires AtSite(t, site) && t.point.sub == sub && BirdSub(sub) && site != CompNft
    ensures var r := RunBird(w, t, sub, site, out); Shaped(t, r) && !r.0.SetIface?
  {
    if sub.BirdReload? || sub.BirdRestore? {
      BirdEndShaped(w, t, sub, site, out);
    } else if sub.BirdCompare? {
      CompareShaped(w, t, site, out);
    } else {
      BirdNextShaped(w, t, sub, site, out);
    }
  }

  lemma CompareShaped(w: World, t: Thread, site: Site, out: Outcome)
    requires AtSite(t, site) && t.point.sub == BirdCompare && site != CompNft
    ensures var r := RunBird(w, t, BirdCompare, site, out); Shaped(t, r) && !r.0.SetIface?
  {
    BirdDoneContinues(t, site);
    ReturnContinues(t, site, false);
    CompareContinues(t, site);
  }

  lemma CompareContinues(t: Thread, site: Site)
    requires AtSite(t, site) && t.point.sub == BirdCompare && site != CompNft
    ensures Continues(t, t.(point := In(BirdCompare, site))) && Continues(t, t.(point := In(BirdPeek, site)))
  {
  }

  lemma BirdNextShaped(w: World, t: Thread, sub: Sub, site: Site, out: Outcome)
    requires AtSite(t, site) && t.point.sub == sub && BirdSub(sub) && site != CompNft
    requires !sub.BirdCompare? && !sub.BirdReload? && !sub.BirdRestore?
    ensures var r := RunBird(w, t, sub, site, out); Shaped(t, r) && !r.0.SetIface?
  {
    ReturnContinues(t, site, false);
  }

  lemma BirdEndShaped(w: World, t: Thread, sub: Sub, site: Site, out: Outcome)
    requires AtSite(t, site) && t.point.sub == sub && (sub.BirdReload? || sub.BirdRestore?) && site != CompNft
    ensures var r := RunBird(w, t, sub, site, out); Shaped(t, r) && !r.0.SetIface?
  {
    BirdDoneContinues(t, site);
    ReturnContinues(t, site, false);
  }

  lemma NftShaped(w: World, t: Thread, sub: Sub, site: Site, out: Outcome)
    requires AtSite(t, site) && t.point.sub == sub && NftSub(sub)
    ensures var r := RunNft(w, t, sub, site, out); Shaped(t, r) && !r.0.SetIface?
  {
    ReturnContinues(t, site, true);
    ReturnContinues(t, site, false);
  }

  /** An interface is given the port of the row it stands for. */
  lemma LinkPorts(w: World, t: Thread, sub: Sub, site: Site, out: Outcome)
    requires IfacePorts(w) && Holding(w, t.target) && t.target.iface == t.target.id
    ensures var eff := RunLink(w, t, sub, site, out).0;
            eff.SetIface? ==> eff.name in w.rows && (eff.i.wg.Some? ==> eff.i.wg.value.port == w.rows[eff.name].port)
  {
  }

  /** A call inside a shared procedure. Only the owner of a row configures its interface. */
  lemma SubFine(s: State, tid: Tid, t: Thread, sub: Sub, site: Site, out: Outcome)
    requires Acts(s, tid, t) && t.point == In(sub, site) && AtSite(t, site)
    requires site == CompNft ==> NftSub(sub)
    requires BirdSub(sub) || NftSub(sub) || sub.DropLink? || (Owning(t) && t.target.iface == t.target.id)
    ensures Fine(s, tid, RunSub(s.w, t, sub, site, out))
  {
    var (eff, k) := RunSub(s.w, t, sub, site, out);
    if BirdSub(sub) {
      BirdShaped(s.w, t, sub, site, out);
    } else if NftSub(sub) {
      NftShaped(s.w, t, sub, site, out);
    } else {
      LinkShaped(s.w, t, sub, site, out);
      if !sub.DropLink? { LinkPorts(s.w, t, sub, site, out); }
    }
    if k.Go? { ContinueFine(s, tid, eff, t, k.t); }
  }

  lemma UpdateTaskFine(s: State, tid: Tid, t: Thread, out: Outcome)
    requires Acts(s, tid, t) && t.task.UpdateTask? && ValidTask(t.task) && ApiInv(s, t)
    requires !t.point.In? && !t.point.WantPeer?
    ensures Fine(s, tid, RunUpdate(s.w, t, out))
  {
    if t.point.ReadOld? { ReadOldFine(s, tid, t, out); }
    else if t.point.StoreDesired? || Armed(t) { UpdateFine(s, tid, t, out); }
  }

  lemma WantFine(s: State, tid: Tid, t: Thread)
    requires Acts(s, tid, t) && t.point.WantPeer? && (ApiTask(t.task) || (t.task.ReconcileTask? && !t.found))
    ensures Fine(s, tid, (Skip, Go(t.(point := Entry(t.task)))))
  {
  }

  lemma RequestFine(s: State, tid: Tid, t: Thread, out: Outcome)
    requires Acts(s, tid, t) && ApiInv(s, t) && s.w.localAsn < U32 && ValidTask(t.task)
    ensures Fine(s, tid, Micro(s.w, t, out))
  {
    if t.point.WantPeer? {
      WantFine(s, tid, t);
    } else if t.point.In? {
      CallFine(s, tid, t, out);
    } else {
      TaskFine(s, tid, t, out);
    }
  }

  lemma CallFine(s: State, tid: Tid, t: Thread, out: Outcome)
    requires Acts(s, tid, t) && ApiInv(s, t) && t.point.In? && s.w.localAsn < U32 && ValidTask(t.task)
    ensures Fine(s, tid, Micro(s.w, t, out))
  {
    CallsOwn(s, t);
    OwnCallFine(s, tid, t, out);
  }

  lemma OwnCallFine(s: State, tid: Tid, t: Thread, out: Outcome)
    requires Acts(s, tid, t) && t.point.In? && AtSite(t, t.point.site) && s.w.localAsn < U32 && ValidTask(t.task)
    requires t.point.site == CompNft ==> NftSub(t.point.sub)
    requires var sub := t.point.sub;
             BirdSub(sub) || NftSub(sub) || sub.DropLink? || (Owning(t) && t.target.iface == t.target.id)
    ensures Fine(s, tid, Micro(s.w, t, out))
  {
    SubFine(s, tid, t, t.point.sub, t.point.site, out);
  }

  /** A request configures only the interface of a row it owns. */
  lemma CallsOwn(s: State, t: Thread)
    requires ApiInv(s, t) && t.point.In? && Fact(s.w, t)
    ensures AtSite(t, t.point.site) && (t.point.site == CompNft ==> NftSub(t.point.sub))
    ensures var sub := t.point.sub;
            BirdSub(sub) || NftSub(sub) || sub.DropLink? || (Owning(t) && t.target.iface == t.target.id)
  {
  }

  lemma TaskFine(s: State, tid: Tid, t: Thread, out: Outcome)
    requires Acts(s, tid, t) && ApiInv(s, t) && s.w.localAsn < U32 && ValidTask(t.task)
    requires !t.point.In? && !t.point.WantPeer?
    ensures Fine(s, tid, Micro(s.w, t, out))
  {
    match t.task {
      case CreateTask(_) => CreateTaskFine(s, tid, t, out);
      case UpdateTask(_) => UpdateTaskFine(s, tid, t, out);
      case DeleteTask(_) => DeleteFine(s, tid, t, out);
    }
  }

  lemma CreateTaskFine(s: State, tid: Tid, t: Thread, out: Outcome)
    requires Acts(s, tid, t) && t.task.CreateTask? && ValidTask(t.task) && ApiInv(s, t)
    requires !t.point.In? && !t.point.WantPeer?
    ensures Fine(s, tid, RunCreate(s.w, t, out))
  {
    if t.point.TakeId? { TakeIdFine(s, tid, t, out); }
    else if t.point.Reserve? { ReserveFine(s, tid, t, out); }
    else if t.point.CreateActivate? || t.point.CompMark? { CreateFine(s, tid, t, out); }
    else if t.point.CompErase? { CompEraseFine(s, tid, t, out); }
    else if !Armed(t) { ScanFine(s, tid, t, out); }
  }

  lemma ReconcileFine(s: State, t: Thread, out: Outcome)
    requires Acts(s, Reconciler, t) && ReconcilerInv(s, t) && s.w.localAsn < U32 && ValidTask(t.task)
    ensures Fine(s, Reconciler, Micro(s.w, t, out))
  {
    if t.point.WantPeer? {
      WantFine(s, Reconciler, t);
    } else if t.point.In? {
      ChangeFine(s, t, t.point.sub, t.point.site, out);
    } else {
      StepFine(s, t, out);
    }
  }

  lemma ChangeFine(s: State, t: Thread, sub: Sub, site: Site, out: Outcome)
    requires Acts(s, Reconciler, t) && t.task.ReconcileTask? && t.point == In(sub, site)
    requires InFacts(s.w, t, sub, site) && PeerOk(s.w, t.target, t.key)
    ensures Fine(s, Reconciler, RunSub(s.w, t, sub, site, out))
  {
    assert site == ChangeApply ==> t.found;
    assert site == ChangeRemove ==> BirdSub(sub) || sub.DropLink?;
    SubFine(s, Reconciler, t, sub, site, out);
  }

  lemma StepFine(s: State, t: Thread, out: Outcome)
    requires Acts(s, Reconciler, t) && ReconcilerInv(s, t) && !t.point.In? && !t.point.WantPeer?
    ensures Fine(s, Reconciler, RunReconcile(s.w, t, out))
  {
    if t.point.ChangeActivate? { StatusFine(s, Reconciler, t.target.id, Active, out); }
    else if t.point.ChangeErase? { EraseFine(s, t, out); }
    else if t.point.ReadById? { ReadFine(s, t, out); }
    else { QueueFine(s, t, out); }
  }

  lemma QueueFine(s: State, t: Thread, out: Outcome)
    requires Acts(s, Reconciler, t) && t.task.ReconcileTask? && (t.point.NextChange? || t.point.DropChange?)
    ensures Fine(s, Reconciler, RunReconcile(s.w, t, out))
  {
  }

  lemma EraseFine(s: State, t: Thread, out: Outcome)
    requires Acts(s, Reconciler, t) && ReconcilerInv(s, t) && t.point.ChangeErase? && EraseFacts(s.w, t)
    requires Claim(s.w, t)
    requires InCritical(t)
    ensures Fine(s, Reconciler, RunReconcile(s.w, t, out))
  {
  }

  lemma ReadFine(s: State, t: Thread, out: Outcome)
    requires Acts(s, Reconciler, t) && t.task.ReconcileTask? && t.point.ReadById? && !t.found
    ensures Fine(s, Reconciler, RunReconcile(s.w, t, out))
  {
    assert t.target.id in s.w.rows ==> s.w.rows[t.target.id].id == t.target.id;
  }

  // ---- recovery ----

  lemma RecoverFine(s: State, t: Thread, out: Outcome)
    requires Acts(s, Recovery, t) && RecoveryInv(s, t) && s.w.localAsn < U32 && ValidTask(t.task)
    ensures Fine(s, Recovery, Micro(s.w, t, out))
  {
    match t.point {
      case In(sub, site) => RecoverSub(s, t, sub, site, out);
      case RvEraseNext => RecoverErase(s, t, out);
      case _ => RecoverOther(s, t, out);
    }
  }

  lemma RecoverSub(s: State, t: Thread, sub: Sub, site: Site, out: Outcome)
    requires Acts(s, Recovery, t) && t.point == In(sub, site) && RecoveryInv(s, t)
    ensures Fine(s, Recovery, RunSub(s.w, t, sub, site, out))
  {
    if site == RvApply { RecoverLink(s, t, sub, out); } else { RecoverCall(s, t, sub, site, out); }
  }

  lemma RecoverCall(s: State, t: Thread, sub: Sub, site: Site, out: Outcome)
    requires Acts(s, Recovery, t) && t.point == In(sub, site) && RecoveryInv(s, t) && site != RvApply
    ensures Fine(s, Recovery, RunSub(s.w, t, sub, site, out))
  {
    if BirdSub(sub) { RecoverBird(s.w, t, sub, site, out); } else { RecoverNft(s.w, t, sub, site, out); }
  }

  /** Recovery goes on without interfaces or rows to configure. */
  predicate Passing(t: Thread, r: (Eff, Cont)) {
    && (r.0.Skip? || r.0.SetCurrent? || r.0.SetPorts?)
    && (r.1.Go? ==> r.1.t.task == t.task && !r.1.t.point.RvApplyNext?)
    && (r.1.Go? ==> !(r.1.t.point.In? && r.1.t.point.site == RvApply))
  }

  lemma RecoverBird(w: World, t: Thread, sub: Sub, site: Site, out: Outcome)
    requires t.task.RecoverTask? && (site == RvNft || site == RvBird) && BirdSub(sub)
    ensures Passing(t, RunBird(w, t, sub, site, out))
  {
  }

  lemma RecoverNft(w: World, t: Thread, sub: Sub, site: Site, out: Outcome)
    requires t.task.RecoverTask? && (site == RvNft || site == RvBird) && NftSub(sub)
    ensures Passing(t, RunNft(w, t, sub, site, out))
  {
  }

  lemma RecoverLink(s: State, t: Thread, sub: Sub, out: Outcome)
    requires Acts(s, Recovery, t) && t.point == In(sub, RvApply) && RecoveryInv(s, t)
    ensures Fine(s, Recovery, RunLink(s.w, t, sub, RvApply, out))
  {
    RecoverHolds(s, t, sub);
    LinkedFine(s, t, sub, out);
  }

  lemma RecoverHolds(s: State, t: Thread, sub: Sub)
    requires Fact(s.w, t) && t.point == In(sub, RvApply) && RecoveryInv(s, t)
    ensures Holding(s.w, t.target) && t.target.iface == t.target.id && !BirdSub(sub) && !NftSub(sub) && !sub.DropLink?
    ensures forall n :: n in t.snap ==> Holding(s.w, t.snap[n])
  {
    var p := t.snap[t.target.id];
    assert Holding(s.w, p) && PeerOk(s.w, p, KeyOf(p)) && p.id == t.target.id;
  }

  lemma LinkedFine(s: State, t: Thread, sub: Sub, out: Outcome)
    requires IfacePorts(s.w) && t.task.RecoverTask? && t.point == In(sub, RvApply)
    requires Holding(s.w, t.target) && t.target.iface == t.target.id
    requires !BirdSub(sub) && !NftSub(sub) && !sub.DropLink? && forall n :: n in t.snap ==> Holding(s.w, t.snap[n])
    ensures Fine(s, Recovery, RunLink(s.w, t, sub, RvApply, out))
  {
    LinkPorts(s.w, t, sub, RvApply, out);
    LinkKeepsRows(s.w, t, sub, out);
  }

  lemma LinkKeepsRows(w: World, t: Thread, sub: Sub, out: Outcome)
    requires t.task.RecoverTask? && t.point == In(sub, RvApply) && !BirdSub(sub) && !NftSub(sub) && !sub.DropLink?
    ensures var (eff, k) := RunLink(w, t, sub, RvApply, out);
            && (eff.Skip? || eff.SetIface?)
            && (k.Go? ==> k.t.snap == t.snap && k.t.task == t.task && (k.t.point.RvApplyNext? || k.t.point.In?))
  {
  }

  /** Recovery erases only rows whose interface it has removed. */
  lemma RecoverErase(s: State, t: Thread, out: Outcome)
    requires Acts(s, Recovery, t) && RecoveryInv(s, t) && t.point.RvEraseNext?
    ensures Fine(s, Recovery, RunRecover(s.w, t, out))
  {
    assert DeletingIds(t.snap) <= UnwantedIds(t.snap);
  }

  lemma RecoverRead(s: State, t: Thread, out: Outcome)
    requires Acts(s, Recovery, t) && t.task.RecoverTask? && (t.point.RvList? || t.point.RvApplyNext?)
    ensures Fine(s, Recovery, RunRecover(s.w, t, out))
  {
  }

  lemma RecoverOther(s: State, t: Thread, out: Outcome)
    requires Acts(s, Recovery, t) && RecoveryInv(s, t) && !t.point.In? && !t.point.RvEraseNext?
    ensures Fine(s, Recovery, RunRecover(s.w, t, out))
  {
    if t.point.RvList? || t.point.RvApplyNext? {
      RecoverRead(s, t, out);
    } else {
      var (eff, k) := RunRecover(s.w, t, out);
      RecoverEffects(s.w, t, out);
    }
  }

  lemma RecoverEffects(w: World, t: Thread, out: Outcome)
    requires Ident(w) && t.task.RecoverTask? && !t.point.RvList? && !t.point.RvApplyNext? && !t.point.RvEraseNext?
    ensures var (eff, k) := RunRecover(w, t, out);
            && (eff.Skip? || eff.DropIface?
                || (eff.SetRow? && eff.p.id in w.rows && eff.p == w.rows[eff.p.id].(status := Active)))
            && (k.Go? ==> k.t.task == t.task && (!k.t.point.In? || k.t.point == t.point) && !k.t.point.RvApplyNext?)
  {
    if t.point.RvActivateNext? { ActivateEffects(w, t, out); } else { SweepEffects(w, t, out); }
  }

  lemma ActivateEffects(w: World, t: Thread, out: Outcome)
    requires Ident(w) && t.task.RecoverTask? && t.point.RvActivateNext?
    ensures var (eff, k) := RunRecover(w, t, out);
            && (eff.Skip? || (eff.SetRow? && eff.p.id in w.rows && eff.p == w.rows[eff.p.id].(status := Active)))
            && (k.Go? ==> k.t.task == t.task && k.t.point == t.point)
  {
  }

  lemma SweepEffects(w: World, t: Thread, out: Outcome)
    requires t.task.RecoverTask? && !t.point.RvList? && !t.point.RvApplyNext? && !t.point.RvEraseNext?
    requires !t.point.RvActivateNext?
    ensures var (eff, k) := RunRecover(w, t, out);
            && (eff.Skip? || eff.DropIface?)
            && (k.Go? ==> k.t.task == t.task && (!k.t.point.In? || k.t.point == t.point) && !k.t.point.RvApplyNext?)
  {
  }

  // ---- the invariant of such runs ----

  lemma ActionFine(s: State, tid: Tid, out: Outcome)
    requires Inv(s) && ApiInvariant(s) && s.pristine && Enabled(s, Run(tid, out))
    ensures Fine(s, tid, Micro(s.w, s.threads[tid], out))
  {
    var t := s.threads[tid];
    assert ThreadInv(s, tid, t);
    match tid {
      case Api(_) => RequestFine(s, tid, t, out);
      case Reconciler => ReconcileFine(s, t, out);
      case Ticker => SubFine(s, tid, t, t.point.sub, t.point.site, out);
      case Recovery => RecoverFine(s, t, out);
    }
  }

  lemma RunKept(s: State, tid: Tid, out: Outcome)
    requires Inv(s) && ApiInvariant(s) && s.pristine && Enabled(s, Run(tid, out))
    ensures ApiInvariant(Exec(s, Run(tid, out)))
  {
    ActionFine(s, tid, out);
    var (eff, k) := Micro(s.w, s.threads[tid], out);
    ContinueKept(s, tid, eff, k);
  }

  lemma ContinueKept(s: State, tid: Tid, eff: Eff, k: Cont)
    requires Inv(s) && ApiInvariant(s) && s.pristine && tid in s.threads && Fine(s, tid, (eff, k))
    ensures ApiInvariant(Continue(s, tid, Apply(s.w, eff), k))
  {
    var s' := Continue(s, tid, Apply(s.w, eff), k);
    WorldKept(s, tid, eff);
    forall u | u in s'.threads ensures Fact(s'.w, s'.threads[u]) {
      if u != tid { OtherFactKept(s, tid, eff, u); }
    }
  }

  lemma StepKept(s: State, step: Step)
    requires Inv(s) && ApiInvariant(s) && Enabled(s, step)
    ensures ApiInvariant(Exec(s, step))
  {
    if s.pristine {
      if step.Run? { RunKept(s, step.tid, step.out); }
      else if step.Submit? || step.StartReconcile? || step.StartTick? || step.Boot? { NewThreadFine(s, step); }
      else { RestKept(s, step); }
    }
  }

  lemma NewThreadFine(s: State, step: Step)
    requires ApiInvariant(s) && Enabled(s, step)
    requires step.Submit? || step.StartReconcile? || step.StartTick? || step.Boot?
    ensures ApiInvariant(Exec(s, step))
  {
  }

  lemma RestKept(s: State, step: Step)
    requires ApiInvariant(s) && Enabled(s, step)
    requires !step.Run? && !step.Submit? && !step.StartReconcile? && !step.StartTick? && !step.Boot?
    ensures ApiInvariant(Exec(s, step))
  {
  }

  lemma {:induction false} RunInvariant(states: seq<State>, steps: seq<Step>, i: nat)
    requires IsRun(states, steps) && Fresh(states[0]) && i < |states|
    ensures Inv(states[i]) && ApiInvariant(states[i])
  {
    SystemProof.RunInv(states, steps, i);
    if i > 0 {
      RunInvariant(states, steps, i - 1);
      StepKept(states[i - 1], steps[i - 1]);
    }
  }

  /** Only writers outside the service end such a run. */
  predicate ServiceStep(step: Step) {
    !step.OutsideInsert? && !step.OutsideUpdate? && !step.OutsideDelete?
  }

  lemma {:induction false} StaysPristine(states: seq<State>, steps: seq<Step>, i: nat)
    requires IsRun(states, steps) && Fresh(states[0]) && i < |states|
    requires forall j :: 0 <= j < i ==> ServiceStep(steps[j])
    ensures states[i].pristine
  {
    if i > 0 {
      StaysPristine(states, steps, i - 1);
      var s, step := states[i - 1], steps[i - 1];
      assert Enabled(s, step) && Exec(s, step).pristine == s.pristine;
    }
  }

  // ---- what follows ----

  /** At every moment, also after a crash, an interface has its row, it is configured with the row's port, and no
      other interface of the service uses that port. */
  lemma PortsFollowRows(states: seq<State>, steps: seq<Step>, i: nat, n: nat)
    requires IsRun(states, steps) && Fresh(states[0]) && i < |states|
    requires forall j :: 0 <= j < i ==> ServiceStep(steps[j])
    requires n in states[i].w.ifaces && states[i].w.ifaces[n].wg.Some?
    ensures var w := states[i].w;
            && n in w.rows && w.rows[n].port == w.ifaces[n].wg.value.port
            && forall m :: m in w.ifaces && m != n && w.ifaces[m].wg.Some? ==>
                             w.ifaces[m].wg.value.port != w.ifaces[n].wg.value.port
  {
    RunInvariant(states, steps, i);
    StaysPristine(states, steps, i);
  }

  /** The shape of every row a service-only run can produce. */
  lemma RowsWellFormed(states: seq<State>, steps: seq<Step>, i: nat, n: nat)
    requires IsRun(states, steps) && Fresh(states[0]) && i < |states|
    requires forall j :: 0 <= j < i ==> ServiceStep(steps[j])
    requires n in states[i].w.rows
    ensures var w := states[i].w;
            var p := w.rows[n];
            && p.id == n && p.iface == n && 20_000 <= p.port < 30_000
            && p.asn != w.localAsn && p.localLl != p.remoteLl
            && forall m :: m in w.rows && m != n ==> KeyOf(w.rows[m]) != KeyOf(p) && w.rows[m].port != p.port
  {
    RunInvariant(states, steps, i);
    StaysPristine(states, steps, i);
  }
}
