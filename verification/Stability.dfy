/** Effects that threads are allowed to have keep the global invariants and what every other
    thread knows. */
module Stability {
  import opened Peers
  import opened World
  import opened Machine
  import opened Invariant

  function After(s: State, eff: Eff): State {
    s.(w := Apply(s.w, eff))
  }

  /** Effects that only grow the outbox and leave the external systems alone. */
  predicate TableEff(eff: Eff) {
    eff.Skip? || eff.SetRow? || eff.EraseRow? || eff.Issue? || eff.SetPorts? || eff.SetDevices?
  }

  ghost predicate Pre(s: State, tid: Tid, eff: Eff) {
    && Ident(s.w) && Mutex(s) && NoOrphan(s) && Allowed(s, tid, eff)
    && (Retiring(s).Some? ==> Retiring(s).value in s.w.outbox)
  }

  lemma IdentKept(s: State, tid: Tid, eff: Eff)
    requires Ident(s.w) && Allowed(s, tid, eff)
    ensures Ident(Apply(s.w, eff))
  {
  }

  lemma UniqueKept(s: State, tid: Tid, eff: Eff)
    requires Unique(s.w) && Allowed(s, tid, eff)
    ensures Unique(Apply(s.w, eff))
  {
  }

  /** Events stay live: only a retiring event is ever removed. */
  lemma LiveKept(s: State, tid: Tid, eff: Eff, e: nat)
    requires Pre(s, tid, eff) && Live(s, e)
    ensures Live(After(s, eff), e) && Apply(s.w, eff).outbox[e] == s.w.outbox[e]
  {
  }

  lemma PendingDeleteKept(s: State, tid: Tid, eff: Eff, n: nat)
    requires Pre(s, tid, eff) && PendingDelete(s, n)
    ensures PendingDelete(After(s, eff), n)
  {
    var e :| Live(s, e) && s.w.outbox[e].peer.id == n && s.w.outbox[e].op == Delete;
    LiveKept(s, tid, eff, e);
  }

  lemma PendingKept(s: State, tid: Tid, eff: Eff, n: nat)
    requires Pre(s, tid, eff) && Pending(s, n)
    ensures Pending(After(s, eff), n)
  {
    var e :| Live(s, e) && s.w.outbox[e].peer.id == n;
    LiveKept(s, tid, eff, e);
  }

  /** A write to row n leaves a live event for n, a DELETE event if the row is gone. */
  lemma WriteIsPending(s: State, tid: Tid, eff: Eff, n: nat)
    requires Pre(s, tid, eff)
    requires (eff.SetRow? && eff.p.id == n) || (eff.EraseRow? && eff.id == n)
    ensures Pending(After(s, eff), n)
    ensures eff.EraseRow? ==> PendingDelete(After(s, eff), n)
  {
    var s' := After(s, eff);
    assert Live(s', s.w.nextEvent);
  }

  lemma NoOrphanKept(s: State, tid: Tid, eff: Eff)
    requires Pre(s, tid, eff)
    ensures NoOrphan(After(s, eff))
  {
    var s' := After(s, eff);
    forall n | n in s'.w.ifaces && n !in s'.w.rows
      ensures PendingDelete(s', n)
    {
      if eff.EraseRow? && eff.id == n {
        WriteIsPending(s, tid, eff, n);
      } else {
        PendingDeleteKept(s, tid, eff, n);
      }
    }
  }

  /** Whatever an effect disturbs is covered by a live event afterwards. */
  lemma CoveredKept(s: State, tid: Tid, eff: Eff)
    requires Pre(s, tid, eff) && Covered(s) && tid != Recovery
    ensures Covered(After(s, eff))
  {
    var s' := After(s, eff);
    forall n
      ensures Settled(s'.w, n) || Pending(s', n)
    {
      SettledOrPending(s, tid, eff, n);
    }
    if !BirdSettled(s'.w) {
      if eff.SetRow? || eff.EraseRow? {
        assert Live(s', s.w.nextEvent);
      } else if eff.SetCurrent? {
        LiveKept(s, tid, eff, s.threads[tid].mark);
      } else {
        var e :| Live(s, e);
        LiveKept(s, tid, eff, e);
      }
    }
  }

  lemma SettledOrPending(s: State, tid: Tid, eff: Eff, n: nat)
    requires Pre(s, tid, eff) && tid != Recovery
    requires Settled(s.w, n) || Pending(s, n)
    ensures Settled(After(s, eff).w, n) || Pending(After(s, eff), n)
  {
    if (eff.SetIface? || eff.DropIface?) && eff.name == n {
      assert Live(s, s.threads[tid].mark);
      assert Pending(s, n);
    }
    if Pending(s, n) {
      PendingKept(s, tid, eff, n);
    } else if (eff.SetRow? && eff.p.id == n) || (eff.EraseRow? && eff.id == n) {
      WriteIsPending(s, tid, eff, n);
    }
  }

  // ---- other threads ----

  /** Two critical sections never concern the same peer. */
  lemma Disjoint(s: State, u: Tid, v: Tid)
    requires Mutex(s) && u in s.threads && v in s.threads && u != v
    requires InCritical(s.threads[u]) && InCritical(s.threads[v])
    requires PeerOk(s.w, s.threads[u].target, s.threads[u].key)
    requires PeerOk(s.w, s.threads[v].target, s.threads[v].key)
    ensures s.threads[u].target.id != s.threads[v].target.id
  {
    if s.threads[u].target.id == s.threads[v].target.id {
      assert Holds(s.threads[u], PeerLock(s.threads[u].key)) && Holds(s.threads[v], PeerLock(s.threads[u].key));
    }
  }

  lemma ApiKept(s: State, tid: Tid, eff: Eff, u: Tid)
    requires Pre(s, tid, eff) && u in s.threads && u.Api? && ApiInv(s, s.threads[u])
    requires u != tid || TableEff(eff)
    requires tid != Recovery
    ensures ApiInv(After(s, eff), s.threads[u])
  {
    var t, s' := s.threads[u], After(s, eff);
    if Armed(t) {
      LiveKept(s, tid, eff, t.mark);
      if t.target.id !in s'.w.rows {
        if eff.EraseRow? && eff.id == t.target.id {
          WriteIsPending(s, tid, eff, t.target.id);
        } else {
          PendingDeleteKept(s, tid, eff, t.target.id);
        }
      }
      if eff.SetIface? || eff.DropIface? {
        Disjoint(s, tid, u);
      }
    }
  }

  ghost predicate OutboxGrows(w: World, w': World) {
    forall e :: e in w.outbox ==> e in w'.outbox && w'.outbox[e] == w.outbox[e]
  }

  lemma OtherKept(w: World, w': World, n: nat, mark: nat)
    requires OutboxGrows(w, w')
    ensures Other(w, n, mark) ==> Other(w', n, mark)
    ensures OtherDelete(w, n, mark) ==> OtherDelete(w', n, mark)
    ensures OtherAny(w, mark) ==> OtherAny(w', mark)
  {
  }

  /** A row write is an event the reconciler is not working on. */
  lemma WriteIsOther(w: World, eff: Eff, n: nat, mark: nat)
    requires mark < w.nextEvent
    requires (eff.SetRow? && eff.p.id == n) || (eff.EraseRow? && eff.id == n && n in w.rows)
    requires eff.EraseRow? ==> w.rows[n].id == n
    ensures Other(Apply(w, eff), n, mark) && OtherAny(Apply(w, eff), mark)
    ensures eff.EraseRow? ==> OtherDelete(Apply(w, eff), n, mark)
  {
    assert w.nextEvent in Apply(w, eff).outbox;
  }

  /** Everything the reconciler may know about `w` still holds of `w'`. */
  ghost predicate Survive(w: World, w': World, t: Thread) {
    var n := t.target.id;
    && (RowFact(w, t) ==> RowFact(w', t))
    && (DeleteFact(w, t) ==> DeleteFact(w', t))
    && (SnapFact(w, t) ==> SnapFact(w', t))
    && (CurrentFact(w, t) ==> CurrentFact(w', t))
    && (Settled(w, n) ==> Settled(w', n) || Other(w', n, t.mark))
    && (Other(w, n, t.mark) ==> Other(w', n, t.mark))
    && (n in w'.ifaces <==> n in w.ifaces)
    && (n in w.ifaces ==> w'.ifaces[n] == w.ifaces[n])
  }

  lemma WriteSurvive(w: World, eff: Eff, t: Thread)
    requires eff.SetRow? || (eff.EraseRow? && eff.id in w.rows && w.rows[eff.id].id == eff.id)
    requires t.mark < w.nextEvent && OutboxGrows(w, Apply(w, eff))
    ensures Survive(w, Apply(w, eff), t)
  {
    var w' := Apply(w, eff);
    OtherKept(w, w', t.target.id, t.mark);
    WriteIsOther(w, eff, if eff.SetRow? then eff.p.id else eff.id, t.mark);
  }

  lemma TableSurvive(s: State, tid: Tid, eff: Eff, t: Thread)
    requires Ident(s.w) && Allowed(s, tid, eff) && TableEff(eff) && t.mark in s.w.outbox
    ensures Survive(s.w, Apply(s.w, eff), t)
  {
    if eff.SetRow? || eff.EraseRow? {
      RowsLogged(s.w, eff);
      WriteSurvive(s.w, eff, t);
    } else {
      NoWriteSurvive(s.w, eff, t);
    }
  }

  lemma RowsLogged(w: World, eff: Eff)
    requires Ident(w) && (eff.SetRow? || eff.EraseRow?)
    ensures OutboxGrows(w, Apply(w, eff))
  {
  }

  lemma NoWriteSurvive(w: World, eff: Eff, t: Thread)
    requires TableEff(eff) && !eff.SetRow? && !eff.EraseRow?
    ensures Survive(w, Apply(w, eff), t)
  {
  }

  lemma ExternalSurvive(s: State, tid: Tid, eff: Eff)
    requires Mutex(s) && Allowed(s, tid, eff) && !TableEff(eff) && tid != Reconciler && tid != Recovery
    requires Reconciler in s.threads && InCritical(s.threads[Reconciler])
    requires var t := s.threads[Reconciler];
             && t.mark in s.w.outbox && s.w.outbox[t.mark].peer.id == t.target.id && PeerOk(s.w, t.target, t.key)
    ensures Survive(s.w, Apply(s.w, eff), s.threads[Reconciler])
  {
    var t, w' := s.threads[Reconciler], Apply(s.w, eff);
    assert OutboxGrows(s.w, w') && w'.rows == s.w.rows;
    OtherKept(s.w, w', t.target.id, t.mark);
    Disjoint(s, tid, Reconciler);
    assert s.threads[tid].mark in s.w.outbox && s.threads[tid].mark != t.mark;
  }

  lemma ReconcilerFrame(s: State, s': State, t: Thread)
    requires ReconcilerInv(s, t)
    requires InCritical(t) ==> Survive(s.w, s'.w, t)
    requires OutboxGrows(s.w, s'.w)
    requires forall n :: n in s.w.keys ==> n in s'.w.keys && s'.w.keys[n] == s.w.keys[n]
    ensures ReconcilerInv(s', t)
  {
  }

  /** What the reconciler knows survives the steps of everybody else. */
  lemma ReconcilerKept(s: State, tid: Tid, eff: Eff)
    requires Pre(s, tid, eff) && Reconciler in s.threads && ReconcilerInv(s, s.threads[Reconciler])
    requires tid != Reconciler || TableEff(eff)
    requires tid != Recovery
    ensures ReconcilerInv(After(s, eff), s.threads[Reconciler])
  {
    var t := s.threads[Reconciler];
    if InCritical(t) {
      if TableEff(eff) {
        TableSurvive(s, tid, eff, t);
      } else {
        ExternalSurvive(s, tid, eff);
      }
    }
    ReconcilerFrame(s, After(s, eff), t);
  }

  /** Between tasks only the world and the retiring event matter to a thread. */
  lemma ApiFrame(s: State, s': State, t: Thread)
    requires ApiInv(s, t) && s'.w == s.w
    requires forall e :: Live(s, e) ==> Live(s', e)
    ensures ApiInv(s', t)
  {
    if Armed(t) && t.target.id !in s.w.rows {
      var e :| Live(s, e) && s.w.outbox[e].peer.id == t.target.id && s.w.outbox[e].op == Delete;
      assert Live(s', e);
    }
  }

  lemma GlobalFrame(s: State, s': State)
    requires s'.w == s.w
    requires forall e :: Live(s, e) ==> Live(s', e)
    ensures NoOrphan(s) ==> NoOrphan(s')
    ensures Covered(s) ==> Covered(s')
  {
    forall n | PendingDelete(s, n) ensures PendingDelete(s', n) {
      var e :| Live(s, e) && s.w.outbox[e].peer.id == n && s.w.outbox[e].op == Delete;
      assert Live(s', e);
    }
    forall n | Pending(s, n) ensures Pending(s', n) {
      var e :| Live(s, e) && s.w.outbox[e].peer.id == n;
      assert Live(s', e);
    }
    if e :| Live(s, e) {
      assert Live(s', e);
    }
  }
}
