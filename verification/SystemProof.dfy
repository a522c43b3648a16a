/** Every step of the system keeps the invariant, so it holds in every state of every run. */
module SystemProof {
  import opened Peers
  import opened World
  import opened Machine
  import opened Invariant
  import opened Stability
  import RequestProof
  import ReconcilerProof
  import RecoveryProof

  // ---- frames: the world stays, threads come and go ----

  ghost predicate LiveGrows(s: State, s': State) {
    forall e :: Live(s, e) ==> Live(s', e)
  }

  lemma ThreadFrame(s: State, s': State, tid: Tid, t: Thread)
    requires ThreadInv(s, tid, t) && s'.w == s.w && LiveGrows(s, s')
    ensures ThreadInv(s', tid, t)
  {
    if tid.Api? { ApiFrame(s, s', t); }
  }

  /** Replacing some threads. */
  lemma Rethread(s: State, s': State)
    requires Inv(s) && s'.w == s.w && LiveGrows(s, s') && Phases(s') && Mutex(s')
    requires s'.phase == Serving ==> s.phase == Serving
    requires forall u :: u in s'.threads ==>
                           (u in s.threads && s'.threads[u] == s.threads[u]) || ThreadInv(s', u, s'.threads[u])
    ensures Inv(s')
  {
    GlobalFrame(s, s');
    forall u | u in s'.threads ensures ThreadInv(s', u, s'.threads[u]) {
      if u in s.threads && s'.threads[u] == s.threads[u] {
        ThreadFrame(s, s', u, s.threads[u]);
      }
    }
  }

  /** A thread that holds nothing yet joins. */
  lemma Join(s: State, s': State, tid: Tid, t: Thread)
    requires Inv(s) && tid !in s.threads && s' == s.(threads := s.threads[tid := t])
    requires s.phase == Serving && tid != Recovery && !t.point.DropChange?
    requires forall lock :: !Holds(t, lock)
    requires ThreadInv(s', tid, t)
    ensures Inv(s')
  {
    assert Retiring(s') == Retiring(s);
    Rethread(s, s');
  }

  lemma SubmitKept(s: State, step: Step)
    requires Inv(s) && Enabled(s, step) && (step.Submit? || step.StartReconcile? || step.StartTick?)
    ensures Inv(Exec(s, step))
  {
    if step.Submit? { RequestJoins(s, step.n, step.task); }
    else if step.StartReconcile? { ReconcilerJoins(s); }
    else { TickerJoins(s); }
  }

  lemma RequestJoins(s: State, n: nat, task: Task)
    requires Inv(s) && Enabled(s, Submit(n, task))
    ensures Inv(Exec(s, Submit(n, task)))
  {
    var s' := Exec(s, Submit(n, task));
    Join(s, s', Api(n), s'.threads[Api(n)]);
  }

  lemma ReconcilerJoins(s: State)
    requires Inv(s) && Enabled(s, StartReconcile)
    ensures Inv(Exec(s, StartReconcile))
  {
    var s' := Exec(s, StartReconcile);
    Join(s, s', Reconciler, s'.threads[Reconciler]);
  }

  lemma TickerJoins(s: State)
    requires Inv(s) && Enabled(s, StartTick)
    ensures Inv(Exec(s, StartTick))
  {
    var s' := Exec(s, StartTick);
    Join(s, s', Ticker, s'.threads[Ticker]);
  }

  lemma StopKept(s: State, step: Step)
    requires Inv(s) && Enabled(s, step) && (step.Cancel? || step.Crash?)
    ensures Inv(Exec(s, step))
  {
    Rethread(s, Exec(s, step));
  }

  lemma RebootKept(s: State)
    requires Inv(s)
    ensures Inv(Exec(s, Reboot))
  {
  }

  lemma BootKept(s: State)
    requires Inv(s) && s.phase == Down
    ensures Inv(Exec(s, Boot))
  {
    var s' := Exec(s, Boot);
    assert ThreadInv(s', Recovery, s'.threads[Recovery]);
    Rethread(s, s');
  }

  // ---- writers outside the service ----

  lemma OutsideWrite(s: State, eff: Eff)
    requires Inv(s) && Allowed(s, Ticker, eff) && (eff.SetRow? || eff.EraseRow? || eff.Issue? || eff.SetDevices?)
    requires eff.SetRow? ==> eff.p.id in s.w.rows || eff.p.id !in s.w.ifaces
    ensures Inv(After(s, eff))
  {
    var s' := After(s, eff);
    IdentKept(s, Ticker, eff);
    UniqueKept(s, Ticker, eff);
    NoOrphanKept(s, Ticker, eff);
    if s.phase == Serving { CoveredKept(s, Ticker, eff); }
    forall u | u in s.threads ensures ThreadInv(s', u, s'.threads[u]) {
      OutsideThread(s, eff, u);
    }
  }

  lemma OutsideThread(s: State, eff: Eff, u: Tid)
    requires Inv(s) && Allowed(s, Ticker, eff) && (eff.SetRow? || eff.EraseRow? || eff.Issue? || eff.SetDevices?)
    requires eff.SetRow? ==> eff.p.id in s.w.rows || eff.p.id !in s.w.ifaces
    requires u in s.threads
    ensures ThreadInv(After(s, eff), u, s.threads[u])
  {
    match u {
      case Api(_) => ApiKept(s, Ticker, eff, u);
      case Reconciler => ReconcilerKept(s, Ticker, eff);
      case Ticker =>
      case Recovery =>
        var t := s.threads[u];
        if !t.point.RvList? { RecoveryProof.OutsideKept(s.w, eff, t); }
    }
  }

  lemma Reflag(s: State, pristine: bool)
    requires Inv(s)
    ensures Inv(s.(pristine := pristine))
  {
    var s' := s.(pristine := pristine);
    assert Retiring(s') == Retiring(s);
    Rethread(s, s');
  }

  lemma OutsideKept(s: State, step: Step)
    requires Inv(s) && Enabled(s, step)
    requires step.OutsideDraw? || step.OutsideInsert? || step.OutsideUpdate? || step.OutsideDelete?
              || step.OutsideDevices?
    ensures Inv(Exec(s, step))
  {
    match step {
      case OutsideDraw(key) => OutsideWrite(s, Issue(key));
      case OutsideInsert(p) =>
        OutsideWrite(s, SetRow(Insert, p));
        Reflag(After(s, SetRow(Insert, p)), false);
      case OutsideUpdate(p) =>
        OutsideWrite(s, SetRow(Update, p));
        Reflag(After(s, SetRow(Update, p)), false);
      case OutsideDelete(id) =>
        OutsideWrite(s, EraseRow(id));
        Reflag(After(s, EraseRow(id)), false);
      case OutsideDevices(ports) => OutsideWrite(s, SetDevices(ports));
    }
  }

  // ---- locks ----

  /** The locks a thread has after an action were held before or have just been granted. */
  ghost predicate Granted(t: Thread, k: Cont) {
    k.Go? ==> forall lock :: Holds(k.t, lock) ==> Holds(t, lock) || Wants(t) == Some(lock)
  }

  /** A procedure returns without any of its own locks. */
  lemma ReturnLocks(t: Thread, site: Site, ok: bool)
    requires t.point.In?
    ensures Granted(t, Return(t, site, ok))
  {
    var k := Return(t, site, ok);
    assert k.Go? ==> !HoldsPort(k.t) && !HoldsBird(k.t) && !HoldsNft(k.t) && k.t.task == t.task && k.t.key == t.key;
  }

  lemma CompareLocks(t: Thread, site: Site, out: Outcome, missing: bool, bad: bool, same: bool)
    requires t.point == In(BirdCompare, site)
    ensures Granted(t, Compared(t, site, out, missing, bad, same).1)
  {
    ReturnLocks(t, site, true);
    ReturnLocks(t, site, false);
  }

  lemma BirdLocks(w: World, t: Thread, sub: Sub, site: Site, out: Outcome)
    requires t.point == In(sub, site) && BirdSub(sub)
    ensures Granted(t, RunBird(w, t, sub, site, out).1)
  {
    if sub.BirdCompare? {
      CompareLocks(t, site, out, w.current.None?, BadIfaceName(t.snap),
                   w.current == Some(DesiredGeneration(w.localAsn, t.snap)));
    } else if sub.BirdReload? || sub.BirdRestore? {
      EndLocks(w, t, sub, site, out);
    } else {
      ReturnLocks(t, site, false);
    }
  }

  lemma EndLocks(w: World, t: Thread, sub: Sub, site: Site, out: Outcome)
    requires t.point == In(sub, site) && (sub.BirdReload? || sub.BirdRestore?)
    ensures Granted(t, RunBird(w, t, sub, site, out).1)
  {
    ReturnLocks(t, site, true);
    ReturnLocks(t, site, false);
  }

  lemma NftLocks(w: World, t: Thread, sub: Sub, site: Site, out: Outcome)
    requires t.point == In(sub, site)
    ensures Granted(t, RunNft(w, t, sub, site, out).1)
  {
    ReturnLocks(t, site, true);
    ReturnLocks(t, site, false);
  }

  lemma LinkLocks(w: World, t: Thread, sub: Sub, site: Site, out: Outcome)
    requires t.point == In(sub, site)
    ensures Granted(t, RunLink(w, t, sub, site, out).1)
  {
    if sub.DropLink? { ReturnLocks(t, site, true); } else { NextLocks(t, sub, site); }
    ReturnLocks(t, site, false);
  }

  lemma NextLocks(t: Thread, sub: Sub, site: Site)
    requires t.point.In?
    ensures Granted(t, Go(t.(point := LinkNext(sub, site)))) && Granted(t, Go(t.(point := In(SetLink, site))))
  {
  }

  lemma CreateHoldsPort(w: World, t: Thread, out: Outcome)
    requires w.localAsn < U32 && t.task.CreateTask? && ValidTask(t.task) && !t.point.In? && !t.point.WantPeer?
    ensures var k := RunCreate(w, t, out).1;
            k.Go? ==> && k.t.task == t.task && k.t.key == t.key && !HoldsBird(k.t) && !HoldsNft(k.t)
                      && (HoldsPort(k.t) ==> HoldsPort(t) || t.point.WantPort?)
  {
  }

  lemma CreateLocks(w: World, t: Thread, out: Outcome)
    requires w.localAsn < U32 && t.task.CreateTask? && ValidTask(t.task) && !t.point.In? && !t.point.WantPeer?
    ensures Granted(t, RunCreate(w, t, out).1)
  {
    CreateHoldsPort(w, t, out);
    GrantedPort(t, RunCreate(w, t, out).1);
  }

  lemma GrantedPort(t: Thread, k: Cont)
    requires t.task.CreateTask? && !t.point.In? && !t.point.WantPeer?
    requires k.Go? ==> && k.t.task == t.task && k.t.key == t.key && !HoldsBird(k.t) && !HoldsNft(k.t)
                       && (HoldsPort(k.t) ==> HoldsPort(t) || t.point.WantPort?)
    ensures Granted(t, k)
  {
  }

  lemma UpdateLocks(w: World, t: Thread, out: Outcome)
    requires w.localAsn < U32 && t.task.UpdateTask? && ValidTask(t.task) && !t.point.In? && !t.point.WantPeer?
    ensures Granted(t, RunUpdate(w, t, out).1)
  {
    var k := RunUpdate(w, t, out).1;
    if k.Go? {
      assert k.t.task == t.task && !HoldsPort(k.t) && !HoldsBird(k.t) && !HoldsNft(k.t);
    }
  }

  lemma DeleteLocks(w: World, t: Thread, out: Outcome)
    requires w.localAsn < U32 && t.task.DeleteTask? && ValidTask(t.task) && !t.point.In? && !t.point.WantPeer?
    ensures Granted(t, RunDelete(w, t, out).1)
  {
    var k := RunDelete(w, t, out).1;
    if k.Go? {
      assert k.t.task == t.task && !HoldsPort(k.t) && !HoldsBird(k.t) && !HoldsNft(k.t);
    }
  }

  lemma ReconcileLocks(w: World, t: Thread, out: Outcome)
    requires w.localAsn < U32 && t.task.ReconcileTask? && ValidTask(t.task) && !t.point.In? && !t.point.WantPeer?
    ensures Granted(t, RunReconcile(w, t, out).1)
  {
    var k := RunReconcile(w, t, out).1;
    if k.Go? {
      assert k.t.task == t.task && !HoldsPort(k.t) && !HoldsBird(k.t) && !HoldsNft(k.t);
    }
  }

  lemma RecoverLocks(w: World, t: Thread, out: Outcome)
    requires w.localAsn < U32 && t.task.RecoverTask? && ValidTask(t.task) && !t.point.In? && !t.point.WantPeer?
    ensures Granted(t, RunRecover(w, t, out).1)
  {
    RecoverHoldsNone(w, t, out);
  }

  lemma RecoverHoldsNone(w: World, t: Thread, out: Outcome)
    requires t.task.RecoverTask? && !t.point.In?
    ensures var k := RunRecover(w, t, out).1;
            k.Go? ==> k.t.task == t.task && !HoldsPort(k.t) && !HoldsBird(k.t) && !HoldsNft(k.t)
  {
  }

  lemma TaskLocks(w: World, t: Thread, out: Outcome)
    requires w.localAsn < U32 && ValidTask(t.task) && !t.point.In? && !t.point.WantPeer?
    ensures Granted(t, Micro(w, t, out).1)
  {
    match t.task {
      case CreateTask(_) => CreateLocks(w, t, out);
      case UpdateTask(_) => UpdateLocks(w, t, out);
      case DeleteTask(_) => DeleteLocks(w, t, out);
      case ReconcileTask => ReconcileLocks(w, t, out);
      case TickTask =>
      case RecoverTask => RecoverLocks(w, t, out);
    }
  }

  lemma NewLocks(w: World, t: Thread, out: Outcome)
    requires w.localAsn < U32 && ValidTask(t.task)
    ensures Granted(t, Micro(w, t, out).1)
  {
    match t.point {
      case WantPeer =>
      case In(sub, site) =>
        if BirdSub(sub) { BirdLocks(w, t, sub, site, out); }
        else if NftSub(sub) { NftLocks(w, t, sub, site, out); }
        else { LinkLocks(w, t, sub, site, out); }
      case _ => TaskLocks(w, t, out);
    }
  }

  lemma MutexKept(s: State, tid: Tid, out: Outcome, k: Cont)
    requires Mutex(s) && Runnable(s, tid) && s.w.localAsn < U32 && ValidTask(s.threads[tid].task)
    requires k == Micro(s.w, s.threads[tid], out).1
    ensures Mutex(Continue(s, tid, s.w, k))
  {
    NewLocks(s.w, s.threads[tid], out);
    var s' := Continue(s, tid, s.w, k);
    forall u, v, lock | u in s'.threads && v in s'.threads && Holds(s'.threads[u], lock) && Holds(s'.threads[v], lock)
      ensures u == v
    {
      assert u == tid || v == tid || (Holds(s.threads[u], lock) && Holds(s.threads[v], lock));
    }
  }

  // ---- one action of one thread ----

  lemma RetiringThere(s: State)
    requires Inv(s)
    ensures RequestProof.Base(s)
    ensures forall tid, eff :: Allowed(s, tid, eff) ==> Pre(s, tid, eff)
  {
  }

  /** The effect of an action, before the acting thread moves on. */
  lemma OthersKept(s: State, tid: Tid, eff: Eff, u: Tid)
    requires Inv(s) && Allowed(s, tid, eff) && tid in s.threads && u in s.threads && u != tid
    ensures ThreadInv(After(s, eff), u, s.threads[u])
  {
    RetiringThere(s);
    assert tid != Recovery && u != Recovery;
    match u {
      case Api(_) => ApiKept(s, tid, eff, u);
      case Reconciler => ReconcilerKept(s, tid, eff);
      case Ticker =>
    }
  }

  /** The state between the effect and the continuation: everything but the acting thread's own knowledge. */
  ghost predicate Midway(s: State, tid: Tid) {
    && Ident(s.w) && Unique(s.w) && Phases(s) && Mutex(s) && NoOrphan(s) && tid in s.threads
    && (s.phase == Serving ==> Covered(s))
    && (forall u :: u in s.threads && u != tid ==> ThreadInv(s, u, s.threads[u]))
  }

  lemma EffectKept(s: State, tid: Tid, eff: Eff)
    requires Inv(s) && Allowed(s, tid, eff) && tid in s.threads
    ensures Midway(After(s, eff), tid)
  {
    RetiringThere(s);
    IdentKept(s, tid, eff);
    UniqueKept(s, tid, eff);
    NoOrphanKept(s, tid, eff);
    if s.phase == Serving { CoveredKept(s, tid, eff); }
    forall u | u in s.threads && u != tid ensures ThreadInv(After(s, eff), u, s.threads[u]) {
      OthersKept(s, tid, eff, u);
    }
  }

  /** The acting thread moves on without starting to retire an event. */
  lemma MoveOn(s: State, tid: Tid, k: Cont, s': State)
    requires Midway(s, tid) && s' == Continue(s, tid, s.w, k) && Mutex(s')
    requires k.Go? ==> ThreadInv(s, tid, k.t) && (tid == Reconciler ==> !k.t.point.DropChange?)
    requires (k.Die? || k.Ready?) ==> tid == Recovery
    requires tid == Recovery && k.End? ==> false
    requires k.Ready? ==> Covered(s')
    ensures Inv(s')
  {
    assert LiveGrows(s, s');
    GlobalFrame(s, s');
    forall u | u in s'.threads ensures ThreadInv(s', u, s'.threads[u]) {
      ThreadFrame(s, s', u, s'.threads[u]);
    }
  }

  /** The reconciler starts to retire its event: everything that event covered holds without it. */
  lemma Retire(s: State, t: Thread, s': State)
    requires Midway(s, Reconciler) && s.phase == Serving && Retiring(s).None?
    requires s' == s.(threads := s.threads[Reconciler := t]) && Mutex(s')
    requires ReconcilerInv(s, t) && ValidTask(t.task) && t.point.DropChange? && DoneFact(s.w, t)
    requires forall u :: u in s.threads && u.Api? && Armed(s.threads[u]) ==> s.threads[u].target.id != t.target.id
    ensures Inv(s')
  {
    RetireGlobal(s, t, s');
    forall u | u in s'.threads ensures ThreadInv(s', u, s'.threads[u]) {
      if u.Api? { RetireApi(s, t, s', s.threads[u]); }
    }
  }

  lemma RetireGlobal(s: State, t: Thread, s': State)
    requires Ident(s.w) && NoOrphan(s) && Covered(s) && Retiring(s).None?
    requires s' == s.(threads := s.threads[Reconciler := t])
    requires Claim(s.w, t) && t.point.DropChange? && DoneFact(s.w, t)
    ensures NoOrphan(s') && Covered(s')
  {
    var w := s.w;
    assert forall e :: e in w.outbox && e != t.mark ==> Live(s', e);
    forall n | n in w.ifaces && n !in w.rows ensures PendingDelete(s', n) {
      if n == t.target.id {
        var e :| e in w.outbox && e != t.mark && w.outbox[e].peer.id == n && w.outbox[e].op == Delete;
        assert Live(s', e);
      } else {
        var e :| Live(s, e) && w.outbox[e].peer.id == n && w.outbox[e].op == Delete;
        assert Live(s', e);
      }
    }
    forall n ensures Settled(w, n) || Pending(s', n) {
      if !Settled(w, n) {
        assert n == t.target.id || Pending(s, n);
        assert Other(w, n, t.mark);
        var e :| e in w.outbox && e != t.mark && w.outbox[e].peer.id == n;
        assert Live(s', e);
      }
    }
    if OtherAny(w, t.mark) {
      var e :| e in w.outbox && e != t.mark;
      assert Live(s', e);
    }
  }

  /** Requests never rely on an event the reconciler is about to delete. */
  lemma RetireApi(s: State, t: Thread, s': State, r: Thread)
    requires ApiInv(s, r) && Retiring(s).None? && s' == s.(threads := s.threads[Reconciler := t])
    requires Claim(s.w, t) && t.point.DropChange?
    requires Armed(r) ==> r.target.id != t.target.id
    ensures ApiInv(s', r)
  {
    if Armed(r) && r.target.id !in s.w.rows {
      var e :| Live(s, e) && s.w.outbox[e].peer.id == r.target.id && s.w.outbox[e].op == Delete;
      assert Live(s', e);
    }
  }

  // ---- the step theorem ----

  lemma RequestRuns(s: State, tid: Tid, out: Outcome)
    requires Inv(s) && Enabled(s, Run(tid, out)) && tid.Api?
    ensures Inv(Exec(s, Run(tid, out)))
  {
    RetiringThere(s);
    RequestProof.RequestStep(s, tid, out);
    var (eff, k) := Micro(s.w, s.threads[tid], out);
    EffectKept(s, tid, eff);
    MutexKept(s, tid, out, k);
    MoveOn(After(s, eff), tid, k, Exec(s, Run(tid, out)));
  }

  lemma TickerStep(w: World, t: Thread, out: Outcome)
    requires w.localAsn < U32 && t.task.TickTask? && t.point.In? && t.point.site == TickNft && NftSub(t.point.sub)
    ensures var (eff, k) := Micro(w, t, out);
            && (eff.Skip? || eff.SetPorts?) && (k.End? || k.Go?)
            && (k.Go? ==> k.t.task.TickTask? && k.t.point.In? && k.t.point.site == TickNft && NftSub(k.t.point.sub))
  {
  }

  lemma TickerRuns(s: State, out: Outcome)
    requires Inv(s) && Enabled(s, Run(Ticker, out))
    ensures Inv(Exec(s, Run(Ticker, out)))
  {
    TickerStep(s.w, s.threads[Ticker], out);
    var (eff, k) := Micro(s.w, s.threads[Ticker], out);
    EffectKept(s, Ticker, eff);
    MutexKept(s, Ticker, out, k);
    MoveOn(After(s, eff), Ticker, k, Exec(s, Run(Ticker, out)));
  }

  lemma RecoveryRuns(s: State, out: Outcome)
    requires Inv(s) && Enabled(s, Run(Recovery, out))
    ensures Inv(Exec(s, Run(Recovery, out)))
  {
    var t, s' := s.threads[Recovery], Exec(s, Run(Recovery, out));
    RecoveryProof.RecoveryStep(s, t, out);
    var (eff, k) := Micro(s.w, t, out);
    EffectKept(s, Recovery, eff);
    MutexKept(s, Recovery, out, k);
    if k.Ready? {
      RecoveryProof.RecoveredIsCovered(s, t, s');
    }
    MoveOn(After(s, eff), Recovery, k, s');
  }

  lemma ReconcilerRuns(s: State, out: Outcome)
    requires Inv(s) && Enabled(s, Run(Reconciler, out))
    ensures Inv(Exec(s, Run(Reconciler, out)))
  {
    var t, s' := s.threads[Reconciler], Exec(s, Run(Reconciler, out));
    RetiringThere(s);
    ReconcilerProof.ReconcilerStep(s, t, out);
    var (eff, k) := Micro(s.w, t, out);
    EffectKept(s, Reconciler, eff);
    MutexKept(s, Reconciler, out, k);
    if k.Go? && k.t.point.DropChange? {
      RetireStarts(s, t, out, eff, k.t);
      Retire(After(s, eff), k.t, s');
    } else {
      MoveOn(After(s, eff), Reconciler, k, s');
    }
  }

  predicate Retires(k: Cont) {
    k.Go? && k.t.point.DropChange?
  }

  lemma ReturnRetires(t: Thread, site: Site, ok: bool)
    ensures Retires(Return(t, site, ok)) ==> site == ChangeNft
  {
  }

  lemma BirdRetires(w: World, t: Thread, sub: Sub, site: Site, out: Outcome)
    requires site != ChangeNft && BirdSub(sub)
    ensures !Retires(RunBird(w, t, sub, site, out).1)
  {
    if sub.BirdCompare? {
      CompareRetires(t, site, out, w.current.None?, BadIfaceName(t.snap),
                     w.current == Some(DesiredGeneration(w.localAsn, t.snap)));
    } else {
      ReturnRetires(t, site, true);
      ReturnRetires(t, site, false);
    }
  }

  lemma CompareRetires(t: Thread, site: Site, out: Outcome, missing: bool, bad: bool, same: bool)
    requires site != ChangeNft
    ensures !Retires(Compared(t, site, out, missing, bad, same).1)
  {
    ReturnRetires(t, site, true);
    ReturnRetires(t, site, false);
  }

  lemma LinkRetires(w: World, t: Thread, sub: Sub, site: Site, out: Outcome)
    requires site != ChangeNft
    ensures !Retires(RunLink(w, t, sub, site, out).1) && !Retires(RunNft(w, t, sub, site, out).1)
  {
    ReturnRetires(t, site, true);
    ReturnRetires(t, site, false);
  }

  /** Only the port synchronisation at the end of a change leads to retiring its event. */
  lemma OnlyNftRetires(w: World, t: Thread, sub: Sub, site: Site, out: Outcome)
    requires site != ChangeNft
    ensures !Retires(RunSub(w, t, sub, site, out).1)
  {
    if BirdSub(sub) { BirdRetires(w, t, sub, site, out); } else { LinkRetires(w, t, sub, site, out); }
  }

  lemma RetireShape(w: World, t: Thread, out: Outcome)
    requires w.localAsn < U32 && ValidTask(t.task) && t.task.ReconcileTask? && ReconcilePoint(t.point)
    requires t.point.In? && t.point.site == ChangeNft ==> NftSub(t.point.sub)
    requires Retires(Micro(w, t, out).1)
    ensures t.point.In? && Micro(w, t, out).1.t.target == t.target
  {
    if t.point.In? && t.point.site != ChangeNft {
      OnlyNftRetires(w, t, t.point.sub, t.point.site, out);
    }
  }

  /** The retiring event was claimed under the peer lock, so no request works on that peer. */
  lemma RetireStarts(s: State, t: Thread, out: Outcome, eff: Eff, t': Thread)
    requires Inv(s) && Reconciler in s.threads && s.threads[Reconciler] == t && s.w.localAsn < U32
    requires Micro(s.w, t, out) == (eff, Go(t')) && t'.point.DropChange?
    ensures t'.target == t.target && Retiring(After(s, eff)).None? && s.phase == Serving
    ensures forall u :: u in s.threads && u.Api? && Armed(s.threads[u]) ==> s.threads[u].target.id != t'.target.id
  {
    assert ReconcilerInv(s, t);
    RetireShape(s.w, t, out);
    forall u | u in s.threads && u.Api? && Armed(s.threads[u]) ensures s.threads[u].target.id != t.target.id {
      assert InCritical(s.threads[u]);
      Disjoint(s, u, Reconciler);
    }
  }

  /** What any action does to the world is among the effects its thread is entitled to. */
  lemma ActionAllowed(s: State, tid: Tid, out: Outcome)
    requires Inv(s) && Enabled(s, Run(tid, out))
    ensures Allowed(s, tid, Micro(s.w, s.threads[tid], out).0)
  {
    var t := s.threads[tid];
    RetiringThere(s);
    match tid {
      case Api(_) => RequestProof.RequestStep(s, tid, out);
      case Reconciler => ReconcilerProof.ReconcilerStep(s, t, out);
      case Ticker => TickerStep(s.w, t, out);
      case Recovery => RecoveryProof.RecoveryStep(s, t, out);
    }
  }

  lemma StepKept(s: State, step: Step)
    requires Inv(s) && Enabled(s, step)
    ensures Inv(Exec(s, step))
  {
    match step {
      case Run(tid, out) =>
        match tid {
          case Api(_) => RequestRuns(s, tid, out);
          case Reconciler => ReconcilerRuns(s, out);
          case Ticker => TickerRuns(s, out);
          case Recovery => RecoveryRuns(s, out);
        }
      case Submit(_, _) => SubmitKept(s, step);
      case StartReconcile => SubmitKept(s, step);
      case StartTick => SubmitKept(s, step);
      case Cancel(_) => StopKept(s, step);
      case Crash => StopKept(s, step);
      case Reboot => RebootKept(s);
      case Boot => BootKept(s);
      case _ => OutsideKept(s, step);
    }
  }

  lemma LeftoverInv(s: State)
    requires Leftover(s)
    ensures Inv(s)
  {
    forall n | n in s.w.ifaces && n !in s.w.rows ensures PendingDelete(s, n) {
      var e :| e in s.w.outbox && s.w.outbox[e].peer.id == n && s.w.outbox[e].op == Delete;
      assert Live(s, e);
    }
  }

  lemma {:induction false} RunInv(states: seq<State>, steps: seq<Step>, i: nat)
    requires IsRun(states, steps) && Leftover(states[0]) && i < |states|
    ensures Inv(states[i])
  {
    if i == 0 {
      LeftoverInv(states[0]);
    } else {
      RunInv(states, steps, i - 1);
      StepKept(states[i - 1], steps[i - 1]);
    }
  }
}
