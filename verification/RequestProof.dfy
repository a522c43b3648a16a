/** A request thread only does what is allowed and keeps its own invariant. */
module RequestProof {
  import opened Peers
  import opened World
  import opened Machine
  import opened Invariant
  import opened Stability

  ghost predicate Base(s: State) {
    && Ident(s.w) && Unique(s.w)
    && (Retiring(s).Some? ==> Retiring(s).value in s.w.outbox)
  }

  /** The acting thread is entitled to the effect, and its invariant holds where it continues. */
  ghost predicate Good(s: State, tid: Tid, r: (Eff, Cont)) {
    && Allowed(s, tid, r.0)
    && (r.1.Go? ==> ApiInv(After(s, r.0), r.1.t) && ValidTask(r.1.t.task))
    && !r.1.Die? && !r.1.Ready?
  }

  ghost predicate Acting(s: State, tid: Tid) {
    tid.Api? && tid in s.threads && ApiInv(s, s.threads[tid]) && ValidTask(s.threads[tid].task)
  }

  /** A row taken from the table is a valid peer of its key. */
  lemma RowIsPeer(w: World, n: nat)
    requires Ident(w) && n in w.rows
    ensures PeerOk(w, w.rows[n], KeyOf(w.rows[n])) && w.rows[n].id == n
  {
  }

  /** Rewriting columns of an existing row is allowed if the identity and the port stay. */
  lemma RewriteAllowed(s: State, tid: Tid, p: Peer)
    requires Base(s) && p.id in s.w.rows && PeerOk(s.w, p, KeyOf(p))
    requires !PortTaken(s.w, p.port, p.id)
    ensures Allowed(s, tid, SetRow(Update, p))
  {
    RowIsPeer(s.w, p.id);
  }

  lemma StatusAllowed(s: State, tid: Tid, id: nat, status: Status, out: Outcome)
    requires Base(s)
    ensures Allowed(s, tid, StatusWrite(s.w, id, status, out))
  {
    if id in s.w.rows {
      RowIsPeer(s.w, id);
      RewriteAllowed(s, tid, s.w.rows[id].(status := status));
    }
  }

  /** A thread that stays armed on the same peer keeps its invariant across its own table write. */
  lemma StaysArmed(s: State, eff: Eff, t: Thread, t': Thread)
    requires Base(s) && ApiInv(s, t) && Armed(t) && Armed(t')
    requires eff.Skip? || (eff.SetRow? && PeerOk(s.w, eff.p, KeyOf(eff.p)))
             || (eff.EraseRow? && eff.id in s.w.rows) || eff.SetPorts?
    requires t'.task == t.task && t'.key == t.key && t'.mark == t.mark
    requires t'.target == t.target || (t.task.UpdateTask? && t'.target == t.prior)
    requires t.task.UpdateTask? ==> t'.prior == t.prior
    requires !t'.point.Erase? && !t'.point.CompErase? && (t'.point.In? ==> Fits(t'.point.sub, t'.point.site))
    ensures ApiInv(After(s, eff), t')
  {
    assert Live(After(s, eff), t.mark);
    StaysRecorded(s, eff, t.target.id);
  }

  /** A row that is not there has a pending DELETE event, also after a write. */
  lemma StaysRecorded(s: State, eff: Eff, n: nat)
    requires Base(s) && (n in s.w.rows || PendingDelete(s, n))
    requires eff.Skip? || eff.SetRow? || (eff.EraseRow? && eff.id in s.w.rows) || eff.SetPorts?
    ensures var s' := After(s, eff); n in s'.w.rows || PendingDelete(s', n)
  {
    var s' := After(s, eff);
    if n !in s'.w.rows {
      if eff.EraseRow? && eff.id == n {
        assert Live(s', s.w.nextEvent);
      } else {
        var e :| Live(s, e) && s.w.outbox[e].peer.id == n && s.w.outbox[e].op == Delete;
        assert Live(s', e);
      }
    }
  }

  /** The first write of a thread arms it. */
  lemma BecomesArmed(s: State, p: Peer, op: Operation, t': Thread)
    requires Base(s) && ApiTask(t'.task) && t'.key == TaskKey(t'.task)
    requires PeerOk(s.w, p, t'.key) && PeerOk(s.w, t'.target, t'.key) && t'.target.id == p.id
    requires t'.mark == s.w.nextEvent && Armed(t') && !t'.point.Erase? && !t'.point.CompErase?
    requires t'.point.In? ==> Fits(t'.point.sub, t'.point.site)
    requires t'.task.UpdateTask? ==> t'.prior.id == p.id && PeerOk(s.w, t'.prior, t'.key)
    ensures ApiInv(After(s, SetRow(op, p)), t')
  {
    assert Live(After(s, SetRow(op, p)), s.w.nextEvent);
  }

  /** Up to the reservation nothing but the id sequence changes. */
  lemma ScanStep(s: State, tid: Tid, out: Outcome)
    requires Base(s) && Acting(s, tid) && s.threads[tid].task.CreateTask?
    requires !Armed(s.threads[tid]) && !s.threads[tid].point.Reserve? && !s.threads[tid].point.TakeId?
    ensures Good(s, tid, RunCreate(s.w, s.threads[tid], out))
  {
    var t := s.threads[tid];
    var (eff, k) := RunCreate(s.w, t, out);
    ScanShape(s.w, t, out);
  }

  lemma ScanShape(w: World, t: Thread, out: Outcome)
    requires w.localAsn < U32 && t.task.CreateTask? && t.task.request.key.asn < U32
    requires !Armed(t) && !t.point.Reserve? && !t.point.TakeId?
    requires t.point.Probe? || t.point.Recheck? ==> PeerOk(w, t.target, t.key)
    ensures var (eff, k) := RunCreate(w, t, out);
            && eff.Skip?
            && (k.Go? ==> k.t.task == t.task && k.t.key == t.key && !k.t.point.In? && !Armed(k.t))
            && (k.Go? && (k.t.point.Reserve? || k.t.point.Probe?) ==> PeerOk(w, k.t.target, k.t.key))
            && (k.Go? ==> k.t.point.WantPort? || k.t.point.TakeId? || k.t.point.Reserve? || k.t.point.Probe?)
  {
  }

  lemma TakeIdStep(s: State, tid: Tid, out: Outcome)
    requires Base(s) && Acting(s, tid) && s.threads[tid].task.CreateTask?
    requires s.threads[tid].point.TakeId?
    ensures Good(s, tid, RunCreate(s.w, s.threads[tid], out))
  {
  }

  lemma ReserveStep(s: State, tid: Tid, out: Outcome)
    requires Base(s) && Acting(s, tid) && s.threads[tid].task.CreateTask?
    requires s.threads[tid].point.Reserve?
    ensures Good(s, tid, RunCreate(s.w, s.threads[tid], out))
  {
    var t := s.threads[tid];
    var (eff, k) := RunCreate(s.w, t, out);
    if eff.SetRow? {
      InsertAllowed(s, tid, t.target);
      if k.Go? { BecomesArmed(s, t.target, Insert, k.t); }
    }
  }

  lemma InsertAllowed(s: State, tid: Tid, p: Peer)
    requires PeerOk(s.w, p, KeyOf(p)) && !Conflict(s.w, p)
    ensures Allowed(s, tid, SetRow(Insert, p))
  {
  }

  lemma EraseStep(s: State, tid: Tid, out: Outcome)
    requires Base(s) && Acting(s, tid) && s.threads[tid].task.CreateTask?
    requires s.threads[tid].point.CompErase?
    ensures Good(s, tid, RunCreate(s.w, s.threads[tid], out))
  {
    var t := s.threads[tid];
    var (eff, k) := RunCreate(s.w, t, out);
    StaysArmed(s, eff, t, k.t);
  }

  lemma CreateStep(s: State, tid: Tid, out: Outcome)
    requires Base(s) && Acting(s, tid) && s.threads[tid].task.CreateTask?
    requires s.threads[tid].point.CreateActivate? || s.threads[tid].point.CompMark?
    ensures Good(s, tid, RunCreate(s.w, s.threads[tid], out))
  {
    var t := s.threads[tid];
    var status := if t.point.CompMark? then Deleting else Active;
    var (eff, k) := RunCreate(s.w, t, out);
    CreateWrites(s.w, t, status, out);
    StatusAllowed(s, tid, t.target.id, status, out);
    if k.Go? { StaysArmed(s, eff, t, k.t); }
  }

  lemma CreateWrites(w: World, t: Thread, status: Status, out: Outcome)
    requires w.localAsn < U32 && t.task.CreateTask? && t.task.request.key.asn < U32
    requires (t.point.CreateActivate? && status == Active) || (t.point.CompMark? && status == Deleting)
    ensures var (eff, k) := RunCreate(w, t, out);
            && eff == StatusWrite(w, t.target.id, status, out)
            && (k.Go? ==> k.t == t.(point := CompMark) || k.t == t.(point := In(BirdList, CompRemove)))
            && !k.Die? && !k.Ready?
  {
  }

  lemma ReadOldStep(s: State, tid: Tid, out: Outcome)
    requires Base(s) && Acting(s, tid) && s.threads[tid].task.UpdateTask? && s.threads[tid].point.ReadOld?
    ensures Good(s, tid, RunUpdate(s.w, s.threads[tid], out))
  {
    var (eff, k) := RunUpdate(s.w, s.threads[tid], out);
    if k.Go? { RowIsPeer(s.w, k.t.prior.id); }
  }

  lemma StoreStep(s: State, tid: Tid, out: Outcome)
    requires Base(s) && Acting(s, tid) && s.threads[tid].task.UpdateTask?
    requires !Armed(s.threads[tid]) && !s.threads[tid].point.WantPeer?
    ensures Good(s, tid, RunUpdate(s.w, s.threads[tid], out))
  {
    var t := s.threads[tid];
    var (eff, k) := RunUpdate(s.w, t, out);
    if t.point.ReadOld? {
      ReadOldStep(s, tid, out);
    } else if eff.SetRow? {
      RowIsPeer(s.w, t.target.id);
      RewriteAllowed(s, tid, eff.p);
      if k.Go? { BecomesArmed(s, eff.p, Update, k.t); }
    }
  }

  lemma CompStoreStep(s: State, tid: Tid, out: Outcome)
    requires Base(s) && Acting(s, tid) && s.threads[tid].task.UpdateTask? && s.threads[tid].point.CompStore?
    ensures Good(s, tid, RunUpdate(s.w, s.threads[tid], out))
  {
    var t := s.threads[tid];
    var (eff, k) := RunUpdate(s.w, t, out);
    if eff.SetRow? {
      RowIsPeer(s.w, t.prior.id);
      RewriteAllowed(s, tid, eff.p);
    }
    if k.Go? { StaysArmed(s, eff, t, k.t); }
  }

  lemma UpdateStep(s: State, tid: Tid, out: Outcome)
    requires Base(s) && Acting(s, tid) && s.threads[tid].task.UpdateTask?
    requires Armed(s.threads[tid]) && !s.threads[tid].point.In?
    ensures Good(s, tid, RunUpdate(s.w, s.threads[tid], out))
  {
    var t := s.threads[tid];
    var (eff, k) := RunUpdate(s.w, t, out);
    if t.point.CompStore? {
      CompStoreStep(s, tid, out);
    } else {
      StatusAllowed(s, tid, t.target.id, Active, out);
    }
  }

  lemma ReadVictimStep(s: State, tid: Tid, out: Outcome)
    requires Base(s) && Acting(s, tid) && s.threads[tid].task.DeleteTask? && s.threads[tid].point.ReadVictim?
    ensures Good(s, tid, RunDelete(s.w, s.threads[tid], out))
  {
    var (eff, k) := RunDelete(s.w, s.threads[tid], out);
    if k.Go? { RowIsPeer(s.w, k.t.target.id); }
  }

  lemma MarkStep(s: State, tid: Tid, out: Outcome)
    requires Base(s) && Acting(s, tid) && s.threads[tid].task.DeleteTask?
    requires !Armed(s.threads[tid]) && !s.threads[tid].point.WantPeer?
    ensures Good(s, tid, RunDelete(s.w, s.threads[tid], out))
  {
    var t := s.threads[tid];
    var (eff, k) := RunDelete(s.w, t, out);
    if t.point.ReadVictim? {
      ReadVictimStep(s, tid, out);
    } else if t.point.MarkDeleting? {
      StatusAllowed(s, tid, t.target.id, Deleting, out);
      if k.Go? {
        RowIsPeer(s.w, t.target.id);
        BecomesArmed(s, eff.p, Update, k.t);
      }
    }
  }

  lemma DeleteStep(s: State, tid: Tid, out: Outcome)
    requires Base(s) && Acting(s, tid) && s.threads[tid].task.DeleteTask?
    requires Armed(s.threads[tid]) && !s.threads[tid].point.In?
    ensures Good(s, tid, RunDelete(s.w, s.threads[tid], out))
  {
    var t := s.threads[tid];
    var (eff, k) := RunDelete(s.w, t, out);
    if !t.point.Erase? {
      StatusAllowed(s, tid, t.target.id, Active, out);
      if k.Go? { StaysArmed(s, eff, t, k.t); }
    }
  }

  /** Same job, possibly another row list, at an armed point. */
  predicate Resumes(t: Thread, t': Thread) {
    && t'.task == t.task && t'.key == t.key && t'.mark == t.mark && t'.target == t.target && t'.prior == t.prior
    && Armed(t') && (t'.point.In? ==> ApiSite(t'.point.site) && Fits(t'.point.sub, t'.point.site))
  }

  predicate OutsideEff(eff: Eff, t: Thread) {
    || eff.Skip? || eff.SetCurrent? || eff.SetPorts?
    || (eff.SetIface? && eff.name == t.target.iface) || eff == DropIface(t.target.iface)
  }

  ghost predicate Shaped(t: Thread, r: (Eff, Cont)) {
    && OutsideEff(r.0, t)
    && (r.1.End? || (r.1.Go? && Resumes(t, r.1.t)))
    && (r.1.Go? && (r.1.t.point.Erase? || r.1.t.point.CompErase?) ==> r.0 == DropIface(t.target.iface))
  }

  /** Where a procedure called by a request returns to. */
  lemma ReturnShape(t: Thread, site: Site, ok: bool, eff: Eff)
    requires ApiSite(site) && OutsideEff(eff, t)
    requires ok && RemoveSite(site) ==> eff == DropIface(t.target.iface)
    ensures Shaped(t, (eff, Return(t, site, ok)))
  {
  }

  lemma CallShape(t: Thread, site: Site, out: Outcome, eff: Eff, next: Cont)
    requires ApiSite(site) && OutsideEff(eff, t) && Shaped(t, (eff, next))
    ensures Shaped(t, Link(t, site, out, eff, next))
  {
    ReturnShape(t, site, false, eff);
    ReturnShape(t, site, false, Skip);
  }

  lemma DoneShape(t: Thread, site: Site)
    requires ApiSite(site)
    ensures Shaped(t, (Skip, BirdDone(t, site)))
  {
    if !RemoveSite(site) {
      ReturnShape(t, site, true, Skip);
    }
  }

  lemma CompareShape(t: Thread, site: Site, out: Outcome, missing: bool, bad: bool, same: bool)
    requires ApiSite(site)
    ensures Shaped(t, Compared(t, site, out, missing, bad, same))
  {
    ReturnShape(t, site, false, Skip);
    ReturnShape(t, site, false, SetCurrent(Some(map[])));
    DoneShape(t, site);
    CompareOn(t, site);
  }

  lemma CompareOn(t: Thread, site: Site)
    requires ApiSite(site)
    ensures Shaped(t, (SetCurrent(Some(map[])), Go(t.(point := In(BirdCompare, site)))))
    ensures Shaped(t, (Skip, Go(t.(point := In(BirdPeek, site)))))
  {
  }

  lemma BirdShape(w: World, t: Thread, sub: Sub, site: Site, out: Outcome)
    requires ApiSite(site) && BirdSub(sub)
    ensures Shaped(t, RunBird(w, t, sub, site, out))
  {
    match sub {
      case BirdCompare =>
        CompareShape(t, site, out, w.current.None?, BadIfaceName(t.snap),
                     w.current == Some(DesiredGeneration(w.localAsn, t.snap)));
      case BirdSwitch(prior) =>
        var g := SetCurrent(Some(DesiredGeneration(w.localAsn, t.snap)));
        CallShape(t, site, out, g, Go(t.(point := In(BirdReload(prior), site))));
      case BirdRestore(prior) =>
        ReturnShape(t, site, false, if out.Fail? then Skip else SetCurrent(prior));
      case BirdReload(_) => DoneShape(t, site);
      case BirdList => ReturnShape(t, site, false, Skip);
      case _ =>
    }
  }

  lemma LinkShape(w: World, t: Thread, sub: Sub, site: Site, out: Outcome)
    requires ApiSite(site)
    ensures Shaped(t, RunLink(w, t, sub, site, out))
  {
    var name := t.target.iface;
    ReturnShape(t, site, false, Skip);
    if sub.DropLink? {
      ReturnShape(t, site, true, DropIface(name));
      CallShape(t, site, out, DropIface(name), Return(t, site, true));
    } else if sub.AddLink? {
      NextShape(t, site, SetLink, BARE_LINK);
      CallShape(t, site, out, SetIface(name, BARE_LINK), Go(t.(point := In(SetLink, site))));
    } else if name in w.ifaces {
      var i, next := Tuned(w.ifaces[name], t.target, sub), LinkNext(sub, site);
      NextShape(t, site, next.sub, i);
      CallShape(t, site, out, SetIface(name, i), Go(t.(point := next)));
    }
  }

  lemma NextShape(t: Thread, site: Site, sub: Sub, i: Iface)
    requires ApiSite(site) && (sub.SetLink? || sub.Configure? || sub.AddAddress? || sub.BirdList?)
    ensures Shaped(t, (SetIface(t.target.iface, i), Go(t.(point := In(sub, site)))))
    ensures Shaped(t, (Skip, Go(t.(point := In(sub, site)))))
  {
  }

  lemma NftShape(w: World, t: Thread, sub: Sub, site: Site, out: Outcome)
    requires ApiSite(site) && !RemoveSite(site) && NftSub(sub)
    ensures Shaped(t, RunNft(w, t, sub, site, out))
  {
    var eff := SetPorts(DesiredPorts(t.snap));
    ReturnShape(t, site, false, Skip);
    ReturnShape(t, site, true, eff);
    CallShape(t, site, out, eff, Return(t, site, true));
  }

  /** Inside a shared procedure only the external systems change. */
  lemma RequestSubStep(s: State, tid: Tid, out: Outcome)
    requires Base(s) && Acting(s, tid) && s.threads[tid].point.In?
    ensures var t := s.threads[tid];
            Good(s, tid, RunSub(s.w, t, t.point.sub, t.point.site, out))
  {
    var t := s.threads[tid];
    var (eff, k) := RunSub(s.w, t, t.point.sub, t.point.site, out);
    if BirdSub(t.point.sub) {
      BirdShape(s.w, t, t.point.sub, t.point.site, out);
    } else if NftSub(t.point.sub) {
      NftShape(s.w, t, t.point.sub, t.point.site, out);
    } else {
      LinkShape(s.w, t, t.point.sub, t.point.site, out);
    }
    assert CanTouch(s, tid);
    assert Allowed(s, tid, eff);
    if k.Go? {
      StaysArmedOutside(s, eff, t, k.t);
    }
  }

  lemma StaysArmedOutside(s: State, eff: Eff, t: Thread, t': Thread)
    requires ApiInv(s, t) && Armed(t) && Armed(t')
    requires eff.Skip? || eff.SetIface? || eff.DropIface? || eff.SetCurrent? || eff.SetPorts?
    requires t'.task == t.task && t'.key == t.key && t'.mark == t.mark && t'.target == t.target && t'.prior == t.prior
    requires t'.point.In? ==> ApiSite(t'.point.site) && Fits(t'.point.sub, t'.point.site)
    requires t'.point.Erase? || t'.point.CompErase? ==> eff == DropIface(t.target.id)
    ensures ApiInv(After(s, eff), t')
  {
    var s' := After(s, eff);
    if t.target.id !in s.w.rows {
      var e :| Live(s, e) && s.w.outbox[e].peer.id == t.target.id && s.w.outbox[e].op == Delete;
      assert Live(s', e);
    }
  }

  lemma CreateArmedStep(s: State, tid: Tid, out: Outcome)
    requires Base(s) && Acting(s, tid) && s.threads[tid].task.CreateTask?
    requires Armed(s.threads[tid]) && !s.threads[tid].point.In?
    ensures Good(s, tid, RunCreate(s.w, s.threads[tid], out))
  {
    var t := s.threads[tid];
    if t.point.CompErase? { EraseStep(s, tid, out); }
    else if t.point.CreateActivate? || t.point.CompMark? { CreateStep(s, tid, out); }
    else { assert RunCreate(s.w, t, out) == (Skip, End); }
  }

  lemma CreateTaskStep(s: State, tid: Tid, out: Outcome)
    requires Base(s) && Acting(s, tid) && s.threads[tid].task.CreateTask?
    requires !s.threads[tid].point.In? && !s.threads[tid].point.WantPeer?
    ensures Good(s, tid, Micro(s.w, s.threads[tid], out))
  {
    var t := s.threads[tid];
    if Armed(t) { CreateArmedStep(s, tid, out); }
    else if t.point.Reserve? { ReserveStep(s, tid, out); }
    else if t.point.TakeId? { TakeIdStep(s, tid, out); }
    else { ScanStep(s, tid, out); }
  }

  lemma RequestStep(s: State, tid: Tid, out: Outcome)
    requires Base(s) && Acting(s, tid)
    ensures Good(s, tid, Micro(s.w, s.threads[tid], out))
  {
    var t := s.threads[tid];
    if t.point.In? { CallStep(s, tid, out); }
    else if t.point.WantPeer? { LockStep(s, tid, out); }
    else { TaskStep(s, tid, out); }
  }

  lemma CallStep(s: State, tid: Tid, out: Outcome)
    requires Base(s) && Acting(s, tid) && s.threads[tid].point.In?
    ensures Good(s, tid, Micro(s.w, s.threads[tid], out))
  {
    RequestSubStep(s, tid, out);
    CallMicro(s.w, s.threads[tid], out);
  }

  lemma CallMicro(w: World, t: Thread, out: Outcome)
    requires w.localAsn < U32 && ValidTask(t.task) && t.point.In?
    ensures Micro(w, t, out) == RunSub(w, t, t.point.sub, t.point.site, out)
  {
  }

  lemma LockStep(s: State, tid: Tid, out: Outcome)
    requires Base(s) && Acting(s, tid) && s.threads[tid].point.WantPeer?
    ensures Good(s, tid, Micro(s.w, s.threads[tid], out))
  {
  }

  lemma TaskStep(s: State, tid: Tid, out: Outcome)
    requires Base(s) && Acting(s, tid) && !s.threads[tid].point.In? && !s.threads[tid].point.WantPeer?
    ensures Good(s, tid, Micro(s.w, s.threads[tid], out))
  {
    var t := s.threads[tid];
    match t.task {
      case CreateTask(_) => CreateTaskStep(s, tid, out);
      case UpdateTask(_) =>
        if Armed(t) { UpdateStep(s, tid, out); } else { StoreStep(s, tid, out); }
      case DeleteTask(_) =>
        if Armed(t) { DeleteStep(s, tid, out); } else { MarkStep(s, tid, out); }
    }
  }
}
