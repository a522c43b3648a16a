/** Recovery runs alone. From the row list it read first it repairs every external system, and
    whatever an outside writer changes meanwhile is left covered by an event. */
module RecoveryProof {
  import opened Peers
  import opened World
  import opened Machine
  import opened Invariant
  import opened Stability

  ghost predicate Repairs(s: State, t: Thread, r: (Eff, Cont)) {
    && Allowed(s, Recovery, r.0)
    && !r.1.End?
    && (r.1.Go? ==> RecoveryInv(After(s, r.0), r.1.t) && ValidTask(r.1.t.task))
    && (r.1.Ready? ==> r.0.Skip? && Ended(t))
  }

  predicate Ended(t: Thread) {
    t.point.RvActivateNext? && t.ids == {}
  }

  // ---- the snapshot stays meaningful ----

  /** Effects that can happen while recovery runs. */
  ghost predicate Mild(w: World, eff: Eff) {
    && !eff.DropEvent?
    && (eff.SetRow? ==> eff.p.id in w.keys && (eff.p.id in w.rows || eff.p.id !in w.ifaces))
    && (eff.EraseRow? ==> eff.id in w.rows && w.rows[eff.id].id == eff.id)
    && (eff.Issue? ==> w.nextId !in w.keys)
  }

  lemma EventsKept(w: World, eff: Eff, n: nat)
    requires Ident(w) && Mild(w, eff)
    ensures Touched(w, n) ==> Touched(Apply(w, eff), n)
    ensures DeleteRecorded(w, n) ==> DeleteRecorded(Apply(w, eff), n)
  {
    assert forall e :: e in w.outbox ==> e in Apply(w, eff).outbox && Apply(w, eff).outbox[e] == w.outbox[e];
  }

  lemma WriteRecorded(w: World, eff: Eff)
    requires eff.SetRow? || (eff.EraseRow? && eff.id in w.rows && w.rows[eff.id].id == eff.id)
    ensures Touched(Apply(w, eff), if eff.SetRow? then eff.p.id else eff.id)
    ensures eff.EraseRow? ==> DeleteRecorded(Apply(w, eff), eff.id)
  {
    assert w.nextEvent in Apply(w, eff).outbox;
  }

  lemma SnapKept(w: World, eff: Eff, snap: map<nat, Peer>)
    requires Ident(w) && Mild(w, eff) && SnapInv(w, snap)
    ensures SnapInv(Apply(w, eff), snap)
  {
    var w' := Apply(w, eff);
    forall n | n in snap ensures n in w'.rows || DeleteRecorded(w', n) {
      EventsKept(w, eff, n);
      if eff.EraseRow? { WriteRecorded(w, eff); }
    }
    forall n ensures SameRow(w', snap, n) || Touched(w', n) {
      EventsKept(w, eff, n);
      if eff.EraseRow? || eff.SetRow? { WriteRecorded(w, eff); }
      assert SameRow(w, snap, n) || Touched(w, n);
    }
  }

  /** External effects neither touch rows nor events. */
  predicate External(eff: Eff) {
    eff.Skip? || eff.SetIface? || eff.DropIface? || eff.SetCurrent? || eff.SetPorts?
  }

  lemma StraysKept(w: World, eff: Eff, snap: map<nat, Peer>)
    requires Ident(w) && Mild(w, eff) && StraysRecorded(w, snap)
    requires eff.SetIface? ==> eff.name in snap
    ensures StraysRecorded(Apply(w, eff), snap)
  {
    forall n | Stray(Apply(w, eff), snap, n) ensures DeleteRecorded(Apply(w, eff), n) {
      assert Stray(w, snap, n);
      EventsKept(w, eff, n);
    }
  }

  lemma ListedKept(w: World, eff: Eff, t: Thread)
    requires Ident(w) && Mild(w, eff) && StraysListed(w, t) && !eff.SetIface?
    ensures StraysListed(Apply(w, eff), t)
  {
    forall n | Stray(Apply(w, eff), t.snap, n)
      ensures n !in Apply(w, eff).rows && exists e :: e in t.events && DeletionOf(t.events[e], n)
    {
      assert Stray(w, t.snap, n);
    }
  }

  lemma NoStraysKept(w: World, eff: Eff, snap: map<nat, Peer>)
    requires NoStrays(w, snap) && !eff.SetIface?
    ensures NoStrays(Apply(w, eff), snap)
  {
    assert forall n :: Stray(Apply(w, eff), snap, n) ==> Stray(w, snap, n);
  }

  lemma TouchedKept(w: World, eff: Eff, ids: set<nat>)
    requires Ident(w) && Mild(w, eff) && AllTouched(w, ids)
    ensures AllTouched(Apply(w, eff), ids)
  {
    forall n | n in ids ensures Touched(Apply(w, eff), n) {
      EventsKept(w, eff, n);
    }
  }

  /** Writers outside the service do not disturb what recovery has established. */
  lemma OutsideKept(w: World, eff: Eff, t: Thread)
    requires Ident(w) && Mild(w, eff) && (eff.SetRow? || eff.EraseRow? || eff.Issue? || eff.SetDevices?)
    requires SnapInv(w, t.snap) && Progress(w, t)
    ensures SnapInv(Apply(w, eff), t.snap) && Progress(Apply(w, eff), t)
  {
    SnapKept(w, eff, t.snap);
    OutsideProgress(w, eff, t);
  }

  lemma OutsideProgress(w: World, eff: Eff, t: Thread)
    requires Ident(w) && Mild(w, eff) && (eff.SetRow? || eff.EraseRow? || eff.Issue? || eff.SetDevices?)
    requires Progress(w, t)
    ensures Progress(Apply(w, eff), t)
  {
    if t.point.RvPurge? { OutsidePurging(w, eff, t); }
    else if t.point.RvEraseNext? { OutsideErasing(w, eff, t); }
    else if t.point.RvActivateNext? { OutsideActivating(w, eff, t); }
    else { OutsideEarly(w, eff, t); }
  }

  lemma OutsideEarly(w: World, eff: Eff, t: Thread)
    requires Ident(w) && Mild(w, eff) && (eff.SetRow? || eff.EraseRow? || eff.Issue? || eff.SetDevices?)
    requires !t.point.RvPurge? && !t.point.RvEraseNext? && !t.point.RvActivateNext? && Progress(w, t)
    ensures Progress(Apply(w, eff), t)
  {
    StraysKept(w, eff, t.snap);
  }

  lemma OutsidePurging(w: World, eff: Eff, t: Thread)
    requires Ident(w) && Mild(w, eff) && (eff.SetRow? || eff.EraseRow? || eff.Issue? || eff.SetDevices?)
    requires t.point.RvPurge? && Progress(w, t)
    ensures Progress(Apply(w, eff), t)
  {
    ListedKept(w, eff, t);
  }

  lemma OutsideErasing(w: World, eff: Eff, t: Thread)
    requires Ident(w) && Mild(w, eff) && (eff.SetRow? || eff.EraseRow? || eff.Issue? || eff.SetDevices?)
    requires t.point.RvEraseNext? && Progress(w, t)
    ensures Progress(Apply(w, eff), t)
  {
    NoStraysKept(w, eff, t.snap);
    TouchedKept(w, eff, DeletingIds(t.snap) - t.ids);
  }

  lemma OutsideActivating(w: World, eff: Eff, t: Thread)
    requires Ident(w) && Mild(w, eff) && (eff.SetRow? || eff.EraseRow? || eff.Issue? || eff.SetDevices?)
    requires t.point.RvActivateNext? && Progress(w, t)
    ensures Progress(Apply(w, eff), t)
  {
    NoStraysKept(w, eff, t.snap);
    TouchedKept(w, eff, DeletingIds(t.snap));
    TouchedKept(w, eff, WantedIds(t.snap) - t.ids);
  }

  // ---- recovery's own steps ----

  ghost predicate Steps(s: State, t: Thread) {
    && Ident(s.w) && NoOrphan(s) && Recovery in s.threads && Reconciler !in s.threads
    && s.threads[Recovery] == t && RecoveryInv(s, t)
  }

  lemma Enter(s: State, t: Thread, eff: Eff, t': Thread)
    requires Allowed(s, Recovery, eff) && t'.task.RecoverTask?
    requires SnapInv(Apply(s.w, eff), t'.snap) && Progress(Apply(s.w, eff), t')
    ensures Repairs(s, t, (eff, Go(t')))
  {
  }

  lemma Dies(s: State, t: Thread, eff: Eff)
    requires Allowed(s, Recovery, eff)
    ensures Repairs(s, t, (eff, Die))
  {
  }

  /** A call whose failure ends the process. */
  lemma Looped(s: State, t: Thread, out: Outcome, eff: Eff, t': Thread)
    requires Allowed(s, Recovery, eff) && Repairs(s, t, (eff, Go(t')))
    ensures Repairs(s, t, Loop(out, eff, t'))
  {
  }

  lemma ReadRows(s: State, t: Thread, out: Outcome)
    requires Steps(s, t) && t.point.RvList?
    ensures Repairs(s, t, RunRecover(s.w, t, out))
  {
    var w, t' := s.w, t.(point := RvApplyNext, snap := s.w.rows, ids := WantedIds(s.w.rows));
    forall n | Stray(w, w.rows, n) ensures DeleteRecorded(w, n) {
      var e :| Live(s, e) && w.outbox[e].peer.id == n && w.outbox[e].op == Delete;
    }
    assert SnapInv(w, w.rows) by {
      assert forall n :: SameRow(w, w.rows, n);
    }
    assert Progress(w, t');
    Enter(s, t, Skip, t');
    Dies(s, t, Skip);
  }

  /** An external call in the early part of recovery. */
  lemma Early(w: World, snap: map<nat, Peer>, eff: Eff)
    requires Ident(w) && SnapInv(w, snap) && StraysRecorded(w, snap) && External(eff)
    requires eff.SetIface? ==> eff.name in snap
    ensures SnapInv(Apply(w, eff), snap) && StraysRecorded(Apply(w, eff), snap)
  {
    SnapKept(w, eff, snap);
    StraysKept(w, eff, snap);
  }

  lemma PickApply(s: State, t: Thread, out: Outcome)
    requires Steps(s, t) && t.point.RvApplyNext?
    ensures Repairs(s, t, RunRecover(s.w, t, out))
  {
    var (eff, k) := RunRecover(s.w, t, out);
    Dies(s, t, Skip);
    if k.Go? {
      PickOn(s.w, t, out);
      Enter(s, t, Skip, k.t);
    }
  }

  lemma PickOn(w: World, t: Thread, out: Outcome)
    requires t.point.RvApplyNext? && SnapInv(w, t.snap) && Progress(w, t) && RunRecover(w, t, out).1.Go?
    ensures var (eff, k) := RunRecover(w, t, out);
            eff.Skip? && k.t.task == t.task && k.t.snap == t.snap && Progress(w, k.t)
  {
    if t.ids != {} {
      forall n | n in t.ids ensures n in t.snap && Progress(w, Picked(t, n)) {
        PickedOn(w, t, n);
      }
    }
  }

  function Picked(t: Thread, n: nat): Thread
    requires n in t.ids && n in t.snap
  {
    t.(point := In(AddLink, RvApply), target := t.snap[n], ids := t.ids - {n})
  }

  lemma PickedOn(w: World, t: Thread, n: nat)
    requires t.point.RvApplyNext? && SnapInv(w, t.snap) && Progress(w, t) && n in t.ids && n in t.snap
    ensures Progress(w, Picked(t, n))
  {
  }

  lemma DeleteIsPending(s: State, n: nat)
    requires Reconciler !in s.threads && DeleteRecorded(s.w, n)
    ensures PendingDelete(s, n)
  {
    var e :| e in s.w.outbox && s.w.outbox[e].peer.id == n && s.w.outbox[e].op == Delete;
    assert Live(s, e);
  }

  /** A call of `apply_wireguard` for a row of the snapshot. */
  lemma ApplyCall(s: State, t: Thread, sub: Sub, out: Outcome)
    requires Steps(s, t) && t.point == In(sub, RvApply)
    ensures Repairs(s, t, RunLink(s.w, t, sub, RvApply, out))
  {
    var n := t.target.id;
    SnapRow(s, t, n);
    Dies(s, t, Skip);
    if sub.AddLink? {
      if n in s.w.ifaces {
        LinkedOn(s, t, Skip, In(SetLink, RvApply));
      } else {
        ApplyLinked(s, t, out, BARE_LINK, In(SetLink, RvApply));
      }
    } else if n in s.w.ifaces {
      ApplyLinked(s, t, out, Tuned(s.w.ifaces[n], t.target, sub), LinkNext(sub, RvApply));
    }
  }

  lemma SnapRow(s: State, t: Thread, n: nat)
    requires Steps(s, t) && !t.point.RvList? && n in t.snap
    ensures PeerOk(s.w, t.snap[n], KeyOf(t.snap[n])) && t.snap[n].id == n
    ensures n in s.w.rows || PendingDelete(s, n)
  {
    assert n in s.w.rows || DeleteRecorded(s.w, n);
    if n !in s.w.rows {
      DeleteIsPending(s, n);
    }
  }

  lemma ApplyLinked(s: State, t: Thread, out: Outcome, i: Iface, next: Point)
    requires Ident(s.w) && SnapInv(s.w, t.snap) && StraysRecorded(s.w, t.snap) && Linking(next)
    requires t.task.RecoverTask? && t.ids <= WantedIds(t.snap)
    requires t.target.id in t.snap && t.target == t.snap[t.target.id] && Wanted(t.target)
    requires t.target.iface == t.target.id && Allowed(s, Recovery, SetIface(t.target.iface, i))
    ensures Repairs(s, t, Link(t, RvApply, out, SetIface(t.target.iface, i), Go(t.(point := next))))
  {
    Early(s.w, t.snap, SetIface(t.target.iface, i));
    Linked(s, t, out, SetIface(t.target.iface, i), next);
  }

  lemma Linked(s: State, t: Thread, out: Outcome, eff: Eff, next: Point)
    requires t.task.RecoverTask? && Linking(next) && Allowed(s, Recovery, eff)
    requires SnapInv(Apply(s.w, eff), t.snap) && StraysRecorded(Apply(s.w, eff), t.snap)
    requires t.ids <= WantedIds(t.snap)
    requires t.target.id in t.snap && t.target == t.snap[t.target.id] && Wanted(t.target)
    ensures Repairs(s, t, Link(t, RvApply, out, eff, Go(t.(point := next))))
  {
    LinkedOn(s, t, eff, next);
    CallEnds(s, t, out, eff, Go(t.(point := next)));
  }

  lemma CallEnds(s: State, t: Thread, out: Outcome, eff: Eff, next: Cont)
    requires Allowed(s, Recovery, eff) && Repairs(s, t, (eff, next))
    ensures Repairs(s, t, Link(t, RvApply, out, eff, next))
  {
    Dies(s, t, eff);
    Dies(s, t, Skip);
  }

  predicate Linking(p: Point) {
    p == RvApplyNext || p == In(SetLink, RvApply) || p == In(Configure, RvApply) || p == In(AddAddress, RvApply)
  }

  lemma LinkedOn(s: State, t: Thread, eff: Eff, next: Point)
    requires t.task.RecoverTask? && Linking(next) && Allowed(s, Recovery, eff)
    requires SnapInv(Apply(s.w, eff), t.snap) && StraysRecorded(Apply(s.w, eff), t.snap)
    requires t.ids <= WantedIds(t.snap)
    requires t.target.id in t.snap && t.target == t.snap[t.target.id] && Wanted(t.target)
    ensures Repairs(s, t, (eff, Go(t.(point := next))))
  {
    LinkedProgress(Apply(s.w, eff), t, next);
    Enter(s, t, eff, t.(point := next));
  }

  lemma LinkedProgress(w: World, t: Thread, next: Point)
    requires Linking(next) && StraysRecorded(w, t.snap) && t.ids <= WantedIds(t.snap)
    requires t.target.id in t.snap && t.target == t.snap[t.target.id] && Wanted(t.target)
    ensures Progress(w, t.(point := next))
  {
  }

  lemma NftCall(s: State, t: Thread, sub: Sub, out: Outcome)
    requires Steps(s, t) && t.point == In(sub, RvNft)
    ensures Repairs(s, t, RunNft(s.w, t, sub, RvNft, out))
  {
    var (eff, k) := RunNft(s.w, t, sub, RvNft, out);
    Early(s.w, t.snap, eff);
    if k.Go? {
      NftOn(s.w, t, sub, out);
      Enter(s, t, eff, k.t);
    } else {
      Dies(s, t, eff);
    }
  }

  lemma NftOn(w: World, t: Thread, sub: Sub, out: Outcome)
    requires t.point == In(sub, RvNft) && Progress(w, t)
    requires var r := RunNft(w, t, sub, RvNft, out); r.1.Go? && StraysRecorded(Apply(w, r.0), t.snap)
    ensures var r := RunNft(w, t, sub, RvNft, out);
            r.1.t.snap == t.snap && r.1.t.task == t.task && Progress(Apply(w, r.0), r.1.t)
  {
  }

  lemma BirdCall(s: State, t: Thread, sub: Sub, out: Outcome)
    requires Steps(s, t) && t.point == In(sub, RvBird)
    ensures Repairs(s, t, RunBird(s.w, t, sub, RvBird, out))
  {
    var (eff, k) := RunBird(s.w, t, sub, RvBird, out);
    Early(s.w, t.snap, eff);
    if k.Go? {
      BirdOn(s.w, t, sub, out);
      Enter(s, t, eff, k.t);
    } else {
      Dies(s, t, eff);
    }
  }

  lemma BirdOn(w: World, t: Thread, sub: Sub, out: Outcome)
    requires t.point == In(sub, RvBird) && Progress(w, t)
    requires var r := RunBird(w, t, sub, RvBird, out); r.1.Go? && StraysRecorded(Apply(w, r.0), t.snap)
    ensures var r := RunBird(w, t, sub, RvBird, out);
            r.1.t.snap == t.snap && r.1.t.task == t.task && Progress(Apply(w, r.0), r.1.t)
  {
    var r := RunBird(w, t, sub, RvBird, out);
    if r.1.t.point.RvDropNext? {
      assert r == (Skip, Go(t.(point := RvDropNext, ids := UnwantedIds(t.snap))));
    } else {
      assert r.1.t.point.In? && r.1.t == t.(point := r.1.t.point);
    }
  }

  lemma DropUnwanted(s: State, t: Thread, out: Outcome)
    requires Steps(s, t) && t.point.RvDropNext?
    ensures Repairs(s, t, RunRecover(s.w, t, out))
  {
    Dies(s, t, Skip);
    if t.ids == {} {
      Enter(s, t, Skip, t.(point := RvScan));
    } else {
      var (eff, k) := RunRecover(s.w, t, out);
      Early(s.w, t.snap, eff);
      if k.Go? {
        assert Progress(Apply(s.w, eff), k.t);
        Enter(s, t, eff, k.t);
      } else {
        Dies(s, t, eff);
      }
    }
  }

  lemma Sweep(s: State, t: Thread, out: Outcome)
    requires Steps(s, t) && (t.point.RvScan? || t.point.RvSweep?)
    ensures Repairs(s, t, RunRecover(s.w, t, out))
  {
    var (eff, k) := RunRecover(s.w, t, out);
    assert Allowed(s, Recovery, eff);
    Early(s.w, t.snap, eff);
    if k.Go? {
      assert k.t.snap == t.snap;
      assert Progress(Apply(s.w, eff), k.t);
      Enter(s, t, eff, k.t);
    } else {
      Dies(s, t, eff);
    }
  }

  lemma ReadChanges(s: State, t: Thread, out: Outcome)
    requires Steps(s, t) && t.point.RvListChanges?
    ensures Repairs(s, t, RunRecover(s.w, t, out))
  {
    forall n | Stray(s.w, t.snap, n) ensures exists e :: e in s.w.outbox && DeletionOf(s.w.outbox[e], n) {
      var e :| e in s.w.outbox && s.w.outbox[e].peer.id == n && s.w.outbox[e].op == Delete;
      assert DeletionOf(s.w.outbox[e], n);
    }
  }

  /** A stray interface is dropped when its DELETE event is visited. */
  lemma PurgeOne(s: State, t: Thread, out: Outcome)
    requires Steps(s, t) && t.point.RvPurge?
    ensures Repairs(s, t, RunRecover(s.w, t, out))
  {
    Dies(s, t, Skip);
    if t.events == map[] {
      var t' := t.(point := RvEraseNext, ids := DeletingIds(t.snap));
      assert NoStrays(s.w, t.snap);
      Enter(s, t, Skip, t');
    } else {
      var e := Least(t.events);
      var v, t' := t.events[e], t.(events := t.events - {e});
      var eff := if v.op == Delete && v.peer.id !in s.w.rows && v.peer.iface == v.peer.id
                 then DropIface(v.peer.iface) else Skip;
      SnapKept(s.w, eff, t.snap);
      PurgeLists(s.w, t, e, eff);
      Enter(s, t, eff, t');
      Dies(s, t, eff);
      Looped(s, t, out, eff, t');
    }
  }

  lemma PurgeLists(w: World, t: Thread, e: nat, eff: Eff)
    requires t.point.RvPurge? && Progress(w, t) && e in t.events
    requires var v := t.events[e];
             eff == if v.op == Delete && v.peer.id !in w.rows && v.peer.iface == v.peer.id
                    then DropIface(v.peer.iface) else Skip
    ensures Progress(Apply(w, eff), t.(events := t.events - {e}))
  {
    var rest := t.events - {e};
    forall n | Stray(Apply(w, eff), t.snap, n)
      ensures n !in w.rows && exists d :: d in rest && DeletionOf(rest[d], n)
    {
      assert Stray(w, t.snap, n);
      var d :| d in t.events && DeletionOf(t.events[d], n);
      assert d in rest;
    }
  }

  lemma EraseOne(s: State, t: Thread, out: Outcome)
    requires Steps(s, t) && t.point.RvEraseNext?
    ensures Repairs(s, t, RunRecover(s.w, t, out))
  {
    Dies(s, t, Skip);
    if t.ids == {} {
      Enter(s, t, Skip, t.(point := RvActivateNext, ids := WantedIds(t.snap)));
    } else {
      var (eff, k) := RunRecover(s.w, t, out);
      if k.Go? {
        EraseOn(s.w, t, eff.id);
        Enter(s, t, eff, k.t);
      } else {
        Dies(s, t, eff);
      }
    }
  }

  lemma EraseOn(w: World, t: Thread, n: nat)
    requires Ident(w) && SnapInv(w, t.snap) && t.point.RvEraseNext? && Progress(w, t) && n in w.rows
    ensures SnapInv(Apply(w, EraseRow(n)), t.snap) && Progress(Apply(w, EraseRow(n)), t.(ids := t.ids - {n}))
  {
    SnapKept(w, EraseRow(n), t.snap);
    NoStraysKept(w, EraseRow(n), t.snap);
    TouchedKept(w, EraseRow(n), DeletingIds(t.snap) - t.ids);
    WriteRecorded(w, EraseRow(n));
  }

  lemma ActivateOne(s: State, t: Thread, out: Outcome)
    requires Steps(s, t) && t.point.RvActivateNext? && Unique(s.w)
    ensures Repairs(s, t, RunRecover(s.w, t, out))
  {
    var (eff, k) := RunRecover(s.w, t, out);
    assert Allowed(s, Recovery, eff);
    if k.Go? {
      ActivateOn(s.w, t, eff.p);
      Enter(s, t, eff, k.t);
    }
  }

  lemma ActivateOn(w: World, t: Thread, p: Peer)
    requires Ident(w) && SnapInv(w, t.snap) && t.point.RvActivateNext? && Progress(w, t) && p.id in w.rows
    ensures SnapInv(Apply(w, SetRow(Update, p)), t.snap)
    ensures Progress(Apply(w, SetRow(Update, p)), t.(ids := t.ids - {p.id}))
  {
    var eff := SetRow(Update, p);
    SnapKept(w, eff, t.snap);
    NoStraysKept(w, eff, t.snap);
    TouchedKept(w, eff, DeletingIds(t.snap));
    TouchedKept(w, eff, WantedIds(t.snap) - t.ids);
    WriteRecorded(w, eff);
  }

  lemma RecoveryStep(s: State, t: Thread, out: Outcome)
    requires Steps(s, t) && Unique(s.w)
    ensures Repairs(s, t, Micro(s.w, t, out))
  {
    match t.point {
      case In(sub, site) =>
        match site {
          case RvApply => ApplyCall(s, t, sub, out);
          case RvNft => NftCall(s, t, sub, out);
          case RvBird => BirdCall(s, t, sub, out);
          case _ => assert false;
        }
      case RvList => ReadRows(s, t, out);
      case RvApplyNext => PickApply(s, t, out);
      case RvListChanges => ReadChanges(s, t, out);
      case RvPurge => PurgeOne(s, t, out);
      case RvEraseNext => EraseOne(s, t, out);
      case RvActivateNext => ActivateOne(s, t, out);
      case RvDropNext => DropUnwanted(s, t, out);
      case _ => Sweep(s, t, out);
    }
  }

  // ---- at the end ----

  lemma RowsAgree(w: World, snap: map<nat, Peer>)
    requires SnapInv(w, snap) && forall n :: !Touched(w, n)
    ensures w.rows == snap
  {
    forall n ensures SameRow(w, snap, n) {
      assert !Touched(w, n);
    }
    assert forall n :: n in w.rows ==> SameRow(w, snap, n);
    assert forall n :: n in snap ==> SameRow(w, snap, n);
  }

  /** A finished recovery leaves every disagreement covered by an event. */
  lemma RecoveredIsCovered(s: State, t: Thread, s': State)
    requires Steps(s, t) && Ended(t) && s'.w == s.w && Reconciler !in s'.threads
    ensures Covered(s')
  {
    var w := s.w;
    forall n ensures Settled(w, n) || Pending(s', n) {
      if Touched(w, n) {
        var e :| e in w.outbox && w.outbox[e].peer.id == n;
        assert Live(s', e);
      } else {
        assert SameRow(w, t.snap, n) && !Stray(w, t.snap, n);
        assert n in t.snap ==> n in UnwantedIds(t.snap) && n !in DeletingIds(t.snap);
      }
    }
    if !exists e :: Live(s', e) {
      forall n ensures !Touched(w, n) {
        if Touched(w, n) {
          var e :| e in w.outbox && w.outbox[e].peer.id == n;
          assert Live(s', e);
        }
      }
      RowsAgree(w, t.snap);
    }
  }
}
