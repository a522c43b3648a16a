/** When a row that is switched off is switched on again. A disabled row does not stay disabled: these are
    exactly the steps that end it, and without other writers only requests for that peer take them. */
module Reactivation {
  import opened Peers
  import opened World
  import opened Machine
  import opened Invariant
  import Stability
  import SystemProof
  import Repair
  import ApiOnly

  /** The row exists and is disabled. */
  predicate IsDisabled(w: World, n: nat) {
    n in w.rows && w.rows[n].status == Disabled
  }

  /** The row exists and must not be configured. */
  predicate Off(w: World, n: nat) {
    n in w.rows && !Wanted(w.rows[n])
  }

  predicate On(w: World, n: nat) {
    n in w.rows && Wanted(w.rows[n])
  }

  predicate IsActive(w: World, n: nat) {
    n in w.rows && w.rows[n].status == Active
  }

  // ---- the steps ----

  /** The thread's next call sets row n active. */
  ghost predicate Activating(t: Thread, n: nat) {
    match t.task
    case CreateTask(_) => t.point.CreateActivate? && t.target.id == n
    case UpdateTask(_) => (t.point.UpdateActivate? || t.point.CompActivate?) && t.target.id == n
    case DeleteTask(_) => (t.point.UndeleteQuiet? || t.point.UndeleteReapply?) && t.target.id == n
    case ReconcileTask => t.point.ChangeActivate? && t.target.id == n
    case RecoverTask => t.point.RvActivateNext? && t.ids != {} && Pick(t.ids) == n
    case TickTask => false
  }

  /** The thread's next call stores a configuration in row n, as provisioning. */
  predicate Storing(w: World, t: Thread, n: nat) {
    && t.task.UpdateTask?
    && ((t.point.StoreDesired? && t.target.id == n && !PortTaken(w, t.target.port, n))
        || (t.point.CompStore? && t.prior.id == n && !PortTaken(w, t.prior.port, n)))
  }

  /** The thread's next call marks row n as being deleted. */
  predicate Marking(t: Thread, n: nat) {
    t.target.id == n &&
    ((t.task.DeleteTask? && t.point.MarkDeleting?) || (t.task.CreateTask? && t.point.CompMark?))
  }

  /** The thread's next call erases row n. */
  ghost predicate Erasing(t: Thread, n: nat) {
    match t.task
    case CreateTask(_) => t.point.CompErase? && t.target.id == n
    case DeleteTask(_) => t.point.Erase? && t.target.id == n
    case ReconcileTask => t.point.ChangeErase? && t.target.id == n
    case RecoverTask => t.point.RvEraseNext? && t.ids != {} && Pick(t.ids) == n
    case _ => false
  }

  /** The step sets row n active, whatever it reports. */
  ghost predicate SetsActive(s: State, step: Step, n: nat)
    requires Enabled(s, step)
  {
    match step
    case Run(tid, out) => !out.Fail? && Activating(s.threads[tid], n)
    case OutsideUpdate(p) => p.id == n && p.status == Active
    case _ => false
  }

  /** The step makes row n one that must be configured. */
  ghost predicate SwitchesOn(s: State, step: Step, n: nat)
    requires Enabled(s, step)
  {
    match step
    case Run(tid, out) => !out.Fail? && (Activating(s.threads[tid], n) || Storing(s.w, s.threads[tid], n))
    case OutsideUpdate(p) => p.id == n && Wanted(p)
    case _ => false
  }

  /** The step writes another status into row n, or erases it. */
  ghost predicate EndsDisabled(s: State, step: Step, n: nat)
    requires Enabled(s, step)
  {
    match step
    case Run(tid, out) =>
      var t := s.threads[tid];
      !out.Fail? && (Activating(t, n) || Storing(s.w, t, n) || Marking(t, n) || Erasing(t, n))
    case OutsideUpdate(p) => p.id == n && p.status != Disabled
    case OutsideDelete(id) => id == n
    case _ => false
  }

  /** What an action does to row n, by the points above. */
  ghost predicate RowEffect(w: World, t: Thread, out: Outcome, eff: Eff, n: nat)
    requires n in w.rows
  {
    var w' := Apply(w, eff);
    if out.Fail? then n in w'.rows && w'.rows[n] == w.rows[n]
    else if Activating(t, n) then n in w'.rows && w'.rows[n] == w.rows[n].(status := Active)
    else if Storing(w, t, n) then n in w'.rows && w'.rows[n].status == Provisioning
    else if Marking(t, n) then n in w'.rows && w'.rows[n] == w.rows[n].(status := Deleting)
    else if Erasing(t, n) then n !in w'.rows
    else n in w'.rows && w'.rows[n] == w.rows[n]
  }

  lemma CreateEffect(w: World, t: Thread, out: Outcome, n: nat)
    requires Ident(w) && n in w.rows && ValidTask(t.task) && t.task.CreateTask? && !t.point.WantPeer? && !t.point.In?
    ensures RowEffect(w, t, out, RunCreate(w, t, out).0, n)
  {
    if t.point.Reserve? { ReserveEffect(w, t, out, n); }
    else if t.point.CreateActivate? || t.point.CompMark? || t.point.CompErase? { CreateWrites(w, t, out, n); }
    else { ScanEffect(w, t, out); }
  }

  lemma ReserveEffect(w: World, t: Thread, out: Outcome, n: nat)
    requires Ident(w) && n in w.rows && ValidTask(t.task) && t.task.CreateTask? && t.point.Reserve?
    ensures RowEffect(w, t, out, RunCreate(w, t, out).0, n)
  {
  }

  lemma CreateWrites(w: World, t: Thread, out: Outcome, n: nat)
    requires Ident(w) && n in w.rows && ValidTask(t.task) && t.task.CreateTask?
    requires t.point.CreateActivate? || t.point.CompMark? || t.point.CompErase?
    ensures RowEffect(w, t, out, RunCreate(w, t, out).0, n)
  {
  }

  lemma ScanEffect(w: World, t: Thread, out: Outcome)
    requires w.localAsn < U32 && ValidTask(t.task) && t.task.CreateTask? && !t.point.Reserve?
    requires !t.point.CreateActivate? && !t.point.CompMark? && !t.point.CompErase?
    ensures var eff := RunCreate(w, t, out).0; eff.Skip? || eff.Issue?
  {
  }

  lemma UpdateEffect(w: World, t: Thread, out: Outcome, n: nat)
    requires Ident(w) && n in w.rows && ValidTask(t.task) && t.task.UpdateTask? && !t.point.WantPeer? && !t.point.In?
    ensures RowEffect(w, t, out, RunUpdate(w, t, out).0, n)
  {
    if t.point.StoreDesired? { DesiredEffect(w, t, out, n); }
    else if t.point.CompStore? { PriorEffect(w, t, out, n); }
  }

  lemma DesiredEffect(w: World, t: Thread, out: Outcome, n: nat)
    requires Ident(w) && n in w.rows && ValidTask(t.task) && t.task.UpdateTask? && t.point.StoreDesired?
    ensures RowEffect(w, t, out, RunUpdate(w, t, out).0, n)
  {
  }

  lemma PriorEffect(w: World, t: Thread, out: Outcome, n: nat)
    requires Ident(w) && n in w.rows && ValidTask(t.task) && t.task.UpdateTask? && t.point.CompStore?
    ensures RowEffect(w, t, out, RunUpdate(w, t, out).0, n)
  {
  }

  lemma DeleteEffect(w: World, t: Thread, out: Outcome, n: nat)
    requires Ident(w) && n in w.rows && t.task.DeleteTask? && !t.point.WantPeer? && !t.point.In?
    ensures RowEffect(w, t, out, RunDelete(w, t, out).0, n)
  {
  }

  lemma ReconcileEffect(w: World, t: Thread, out: Outcome, n: nat)
    requires Ident(w) && n in w.rows && t.task.ReconcileTask? && !t.point.WantPeer? && !t.point.In?
    ensures RowEffect(w, t, out, RunReconcile(w, t, out).0, n)
  {
  }

  lemma RecoverEffect(w: World, t: Thread, out: Outcome, n: nat)
    requires Ident(w) && n in w.rows && t.task.RecoverTask? && !t.point.WantPeer? && !t.point.In?
    ensures RowEffect(w, t, out, RunRecover(w, t, out).0, n)
  {
    if t.point.RvEraseNext? { RecoverErases(w, t, out, n); }
    else if t.point.RvActivateNext? { RecoverActivates(w, t, out, n); }
    else { RecoverReads(w, t, out); }
  }

  lemma RecoverErases(w: World, t: Thread, out: Outcome, n: nat)
    requires Ident(w) && n in w.rows && t.task.RecoverTask? && t.point.RvEraseNext?
    ensures RowEffect(w, t, out, RunRecover(w, t, out).0, n)
  {
  }

  lemma RecoverActivates(w: World, t: Thread, out: Outcome, n: nat)
    requires Ident(w) && n in w.rows && t.task.RecoverTask? && t.point.RvActivateNext?
    ensures RowEffect(w, t, out, RunRecover(w, t, out).0, n)
  {
  }

  lemma RecoverReads(w: World, t: Thread, out: Outcome)
    requires t.task.RecoverTask? && !t.point.RvEraseNext? && !t.point.RvActivateNext?
    ensures var eff := RunRecover(w, t, out).0; eff.Skip? || eff.DropIface?
  {
  }

  /** The shared procedures and the wait for a peer lock write no rows. */
  lemma CallEffect(w: World, t: Thread, sub: Sub, site: Site, out: Outcome)
    ensures Apply(w, RunSub(w, t, sub, site, out).0).rows == w.rows
  {
    if BirdSub(sub) { BirdEffect(w, t, sub, site, out); }
    else if NftSub(sub) { NftEffect(w, t, sub, site, out); }
    else { LinkEffect(w, t, sub, site, out); }
  }

  lemma BirdEffect(w: World, t: Thread, sub: Sub, site: Site, out: Outcome)
    ensures var eff := RunBird(w, t, sub, site, out).0; eff.Skip? || eff.SetCurrent?
  {
  }

  lemma NftEffect(w: World, t: Thread, sub: Sub, site: Site, out: Outcome)
    ensures var eff := RunNft(w, t, sub, site, out).0; eff.Skip? || eff.SetPorts?
  {
  }

  lemma LinkEffect(w: World, t: Thread, sub: Sub, site: Site, out: Outcome)
    ensures var eff := RunLink(w, t, sub, site, out).0; eff.Skip? || eff.SetIface? || eff.DropIface?
  {
  }

  lemma ActionEffect(s: State, tid: Tid, out: Outcome, n: nat)
    requires Ident(s.w) && Enabled(s, Run(tid, out)) && n in s.w.rows
    ensures RowEffect(s.w, s.threads[tid], out, Micro(s.w, s.threads[tid], out).0, n)
  {
    var t := s.threads[tid];
    if t.point.In? { CallEffect(s.w, t, t.point.sub, t.point.site, out); }
    else if !t.point.WantPeer? {
      match t.task {
        case CreateTask(_) => CreateEffect(s.w, t, out, n);
        case UpdateTask(_) => UpdateEffect(s.w, t, out, n);
        case DeleteTask(_) => DeleteEffect(s.w, t, out, n);
        case ReconcileTask => ReconcileEffect(s.w, t, out, n);
        case RecoverTask => RecoverEffect(s.w, t, out, n);
        case TickTask =>
      }
    }
  }

  /** Steps that are no action of a thread touch rows only as writers outside the service. */
  lemma OtherEffect(s: State, step: Step, n: nat)
    requires Ident(s.w) && Enabled(s, step) && n in s.w.rows && !step.Run?
    requires !(step.OutsideUpdate? && step.p.id == n) && !(step.OutsideDelete? && step.id == n)
    ensures n in Exec(s, step).w.rows && Exec(s, step).w.rows[n] == s.w.rows[n]
  {
  }

  lemma RunWorld(s: State, tid: Tid, out: Outcome)
    requires Enabled(s, Run(tid, out))
    ensures Exec(s, Run(tid, out)).w == Apply(s.w, Micro(s.w, s.threads[tid], out).0)
  {
  }

  /** What any step does to row n. */
  lemma StepEffect(s: State, step: Step, n: nat)
    requires Ident(s.w) && Enabled(s, step) && n in s.w.rows
    ensures step.Run? ==> RowEffect(s.w, s.threads[step.tid], step.out, Micro(s.w, s.threads[step.tid], step.out).0, n)
                          && Exec(s, step).w == Apply(s.w, Micro(s.w, s.threads[step.tid], step.out).0)
    ensures !step.Run? && !(step.OutsideUpdate? && step.p.id == n) && !(step.OutsideDelete? && step.id == n) ==>
              n in Exec(s, step).w.rows && Exec(s, step).w.rows[n] == s.w.rows[n]
    ensures step.OutsideUpdate? && step.p.id == n ==> Exec(s, step).w.rows[n] == step.p
    ensures step.OutsideDelete? && step.id == n ==> n !in Exec(s, step).w.rows
  {
    if step.Run? {
      ActionEffect(s, step.tid, step.out, n);
      RunWorld(s, step.tid, step.out);
    } else if !(step.OutsideUpdate? && step.p.id == n) && !(step.OutsideDelete? && step.id == n) {
      OtherEffect(s, step, n);
    }
  }

  // ---- exactly when ----

  /** A row that is switched off becomes active exactly by these steps. */
  lemma ActivatedExactly(s: State, step: Step, n: nat)
    requires Ident(s.w) && Enabled(s, step) && Off(s.w, n)
    ensures IsActive(Exec(s, step).w, n) <==> SetsActive(s, step, n)
  {
    StepEffect(s, step, n);
  }

  /** It is switched on again exactly by these. */
  lemma SwitchedOnExactly(s: State, step: Step, n: nat)
    requires Ident(s.w) && Enabled(s, step) && Off(s.w, n)
    ensures On(Exec(s, step).w, n) <==> SwitchesOn(s, step, n)
  {
    StepEffect(s, step, n);
  }

  /** A disabled row stays disabled at every step but these. */
  lemma DisabledEndsExactly(s: State, step: Step, n: nat)
    requires Ident(s.w) && Enabled(s, step) && IsDisabled(s.w, n)
    ensures !IsDisabled(Exec(s, step).w, n) <==> EndsDisabled(s, step, n)
  {
    StepEffect(s, step, n);
  }

  // ---- without other writers ----

  predicate Following(t: Thread) {
    t.task.ReconcileTask? && t.found
    && (t.point.ChangeActivate? || t.point.ChangeErase?
        || (t.point.In? && (t.point.site == ChangeApply || t.point.site == ChangeRemove)))
  }

  predicate SettingUp(t: Thread) {
    t.task.CreateTask?
    && ((t.point.In? && (t.point.site == CreateApply || t.point.site == CreateNft))
        || t.point.CreateActivate? || t.point.CompMark?)
  }

  predicate Withdrawing(t: Thread) {
    t.task.CreateTask? && ((t.point.In? && t.point.site == CompRemove) || t.point.CompErase?)
  }

  /** What a thread knows about the row it works on while nobody else writes it. */
  ghost predicate Held(w: World, t: Thread) {
    && (Following(t) ==> t.target.id in w.rows && w.rows[t.target.id] == t.target)
    && (t.task.ReconcileTask? && t.point.ChangeErase? ==> t.target.status == Deleting)
    && (ApiOnly.Scanning(t) ==> t.target.status == Provisioning)
    && (SettingUp(t) ==> On(w, t.target.id))
    && (Withdrawing(t) ==> t.target.id in w.rows && !IsDisabled(w, t.target.id))
    && (t.task.RecoverTask? && !t.point.RvList? ==> Repair.Between(t.snap, w.rows))
  }

  ghost predicate AllHeld(s: State) {
    forall tid :: tid in s.threads ==> Held(s.w, s.threads[tid])
  }

  /** The row a thread has under its lock. */
  predicate LocksRow(t: Thread) {
    Following(t) || SettingUp(t) || Withdrawing(t)
  }

  /** A row that is the same keeps what is known about it. */
  lemma HeldSame(w: World, w': World, t: Thread)
    requires Held(w, t) && !t.task.RecoverTask?
    requires LocksRow(t) ==> t.target.id in w'.rows && w'.rows[t.target.id] == w.rows[t.target.id]
    ensures Held(w', t)
  {
  }

  ghost predicate Writing(w: World, t: Thread, n: nat) {
    Activating(t, n) || Storing(w, t, n) || Marking(t, n) || Erasing(t, n)
  }

  /** A thread writes only the row it has under its peer lock. */
  lemma WriterLocks(s: State, tid: Tid, n: nat)
    requires Inv(s) && tid in s.threads && tid != Recovery && Writing(s.w, s.threads[tid], n)
    ensures ApiOnly.Locked(s, tid, n)
  {
    assert ThreadInv(s, tid, s.threads[tid]);
  }

  lemma RowIsLocked(s: State, u: Tid)
    requires Inv(s) && u in s.threads && LocksRow(s.threads[u])
    ensures ApiOnly.Locked(s, u, s.threads[u].target.id) && u != Recovery
  {
    assert ThreadInv(s, u, s.threads[u]);
  }

  /** Nobody else writes a row under another thread's lock. */
  lemma OthersRow(s: State, tid: Tid, out: Outcome, u: Tid)
    requires Inv(s) && AllHeld(s) && Enabled(s, Run(tid, out)) && tid != Recovery
    requires u in s.threads && u != tid && LocksRow(s.threads[u])
    ensures var n := s.threads[u].target.id;
            var w' := Apply(s.w, Micro(s.w, s.threads[tid], out).0);
            n in s.w.rows && n in w'.rows && w'.rows[n] == s.w.rows[n]
  {
    var n := s.threads[u].target.id;
    assert Held(s.w, s.threads[u]);
    RowIsLocked(s, u);
    if Writing(s.w, s.threads[tid], n) {
      WriterLocks(s, tid, n);
      Stability.Disjoint(s, tid, u);
    }
    ActionEffect(s, tid, out, n);
  }

  // What a thread's own action leaves it with.

  ghost predicate StaysHeld(w: World, r: (Eff, Cont)) {
    r.1.Go? ==> Held(Apply(w, r.0), r.1.t)
  }

  /** The same work goes on, with no row taken under lock. */
  predicate Onward(t: Thread, t': Thread) {
    && t'.task == t.task && t'.target == t.target && t'.found == t.found && t'.snap == t.snap
    && (Following(t') ==> Following(t)) && (SettingUp(t') ==> SettingUp(t)) && (Withdrawing(t') ==> Withdrawing(t))
    && (t'.point.ChangeErase? ==> t.target.status == Deleting) && !ApiOnly.Scanning(t') && !t'.point.RvList?
  }

  predicate Sited(t: Thread, site: Site) {
    && t.point.In? && t.point.site == site
    && (t.task.CreateTask? ==> ApiSite(site)) && (t.task.ReconcileTask? ==> ChangeSite(site))
    && (t.task.RecoverTask? ==> RecoverSite(site))
  }

  lemma ReturnOnward(t: Thread, site: Site, ok: bool)
    requires Sited(t, site)
    ensures Return(t, site, ok).Go? ==> Onward(t, Return(t, site, ok).t)
  {
  }

  lemma DoneOnward(t: Thread, site: Site)
    requires Sited(t, site)
    ensures BirdDone(t, site).Go? ==> Onward(t, BirdDone(t, site).t)
  {
    ReturnOnward(t, site, true);
  }

  lemma BirdOnward(w: World, t: Thread, sub: Sub, site: Site, out: Outcome)
    requires Sited(t, site) && !sub.BirdList?
    ensures var k := RunBird(w, t, sub, site, out).1; k.Go? ==> Onward(t, k.t)
  {
    if sub.BirdReload? || sub.BirdCompare? { DoneOnward(t, site); }
    ReturnOnward(t, site, false);
    if sub.BirdCompare? { CompareOnward(w, t, site, out); }
  }

  lemma CompareOnward(w: World, t: Thread, site: Site, out: Outcome)
    requires Sited(t, site)
    ensures var k := RunBird(w, t, BirdCompare, site, out).1; k.Go? ==> Onward(t, k.t)
  {
    ComparedOnward(t, site, out, w.current.None?, BadIfaceName(t.snap),
                   w.current == Some(DesiredGeneration(w.localAsn, t.snap)));
  }

  lemma ComparedOnward(t: Thread, site: Site, out: Outcome, missing: bool, bad: bool, same: bool)
    requires Sited(t, site)
    ensures var k := Compared(t, site, out, missing, bad, same).1; k.Go? ==> Onward(t, k.t)
  {
    DoneOnward(t, site);
    ReturnOnward(t, site, false);
  }

  lemma LinkOnward(w: World, t: Thread, sub: Sub, site: Site, out: Outcome)
    requires Sited(t, site)
    ensures var k := RunLink(w, t, sub, site, out).1; k.Go? ==> Onward(t, k.t)
  {
    if sub.DropLink? { ReturnOnward(t, site, true); } else { NextOnward(t, sub, site); }
    ReturnOnward(t, site, false);
  }

  lemma NextOnward(t: Thread, sub: Sub, site: Site)
    requires Sited(t, site)
    ensures Onward(t, t.(point := LinkNext(sub, site))) && Onward(t, t.(point := In(SetLink, site)))
  {
  }

  lemma NftOnward(w: World, t: Thread, sub: Sub, site: Site, out: Outcome)
    requires Sited(t, site) && !sub.NftList?
    ensures var k := RunNft(w, t, sub, site, out).1; k.Go? ==> Onward(t, k.t)
  {
    ReturnOnward(t, site, true);
    ReturnOnward(t, site, false);
  }

  /** A call that lists the rows only renews the list. */
  lemma ListOnward(w: World, t: Thread, sub: Sub, site: Site, out: Outcome)
    requires Sited(t, site) && (sub.BirdList? || sub.NftList?)
    ensures var k := RunSub(w, t, sub, site, out).1; k.Go? ==> Onward(t, k.t.(snap := t.snap))
  {
    ReturnOnward(t, site, false);
  }

  lemma OnwardHeld(w: World, w': World, t: Thread, t': Thread)
    requires Held(w, t) && w'.rows == w.rows && Onward(t, t'.(snap := t.snap))
    requires t.task.RecoverTask? ==> t'.snap == t.snap && !t.point.RvList?
    ensures Held(w', t')
  {
  }

  lemma CallHeld(w: World, t: Thread, sub: Sub, site: Site, out: Outcome)
    requires t.point == In(sub, site) && Held(w, t) && Sited(t, site)
    requires t.task.RecoverTask? ==> !sub.BirdList? && !sub.NftList?
    ensures StaysHeld(w, RunSub(w, t, sub, site, out))
  {
    CallEffect(w, t, sub, site, out);
    if sub.BirdList? || sub.NftList? { ListOnward(w, t, sub, site, out); }
    else if BirdSub(sub) { BirdOnward(w, t, sub, site, out); }
    else if NftSub(sub) { NftOnward(w, t, sub, site, out); }
    else { LinkOnward(w, t, sub, site, out); }
    var (eff, k) := RunSub(w, t, sub, site, out);
    if k.Go? { OnwardHeld(w, Apply(w, eff), t, k.t); }
  }

  lemma ScanHeld(w: World, t: Thread, out: Outcome)
    requires w.localAsn < U32 && Held(w, t) && t.task.CreateTask? && ValidTask(t.task)
    requires t.point.CheckName? || t.point.WantPort? || t.point.TakeId? || t.point.Probe? || t.point.Recheck?
    ensures StaysHeld(w, RunCreate(w, t, out))
  {
  }

  lemma ReserveHeld(w: World, t: Thread, out: Outcome)
    requires w.localAsn < U32 && Held(w, t) && t.task.CreateTask? && ValidTask(t.task) && t.point.Reserve?
    ensures StaysHeld(w, RunCreate(w, t, out))
  {
    ReserveGoes(w, t, out);
  }

  lemma ReserveGoes(w: World, t: Thread, out: Outcome)
    requires w.localAsn < U32 && t.task.CreateTask? && ValidTask(t.task) && t.point.Reserve?
    ensures var (eff, k) := RunCreate(w, t, out);
            k.Go? ==> k.t.task == t.task && k.t.target == t.target
                      && (k.t.point.Recheck?
                          || (k.t.point == In(AddLink, CreateApply) && eff == SetRow(Insert, t.target)))
  {
  }

  lemma ActivateHeld(w: World, t: Thread, out: Outcome)
    requires Ident(w) && Held(w, t) && t.task.CreateTask? && ValidTask(t.task) && t.point.CreateActivate?
    ensures StaysHeld(w, RunCreate(w, t, out))
  {
  }

  lemma MarkHeld(w: World, t: Thread, out: Outcome)
    requires Ident(w) && Held(w, t) && t.task.CreateTask? && ValidTask(t.task) && t.point.CompMark?
    ensures StaysHeld(w, RunCreate(w, t, out))
  {
  }

  lemma EraseHeld(w: World, t: Thread, out: Outcome)
    requires Ident(w) && Held(w, t) && t.task.CreateTask? && ValidTask(t.task) && t.point.CompErase?
    ensures StaysHeld(w, RunCreate(w, t, out))
  {
  }

  lemma CreateHeld(w: World, t: Thread, out: Outcome)
    requires Ident(w) && Held(w, t) && t.task.CreateTask? && ValidTask(t.task) && !t.point.In? && !t.point.WantPeer?
    ensures StaysHeld(w, RunCreate(w, t, out))
  {
    if t.point.Reserve? { ReserveHeld(w, t, out); }
    else if t.point.CreateActivate? { ActivateHeld(w, t, out); }
    else if t.point.CompMark? { MarkHeld(w, t, out); }
    else if t.point.CompErase? { EraseHeld(w, t, out); }
    else if t.point.CheckName? || t.point.WantPort? || t.point.TakeId? || t.point.Probe? || t.point.Recheck? {
      ScanHeld(w, t, out);
    }
  }

  lemma ReconcileHeld(w: World, t: Thread, out: Outcome)
    requires Ident(w) && Held(w, t) && t.task.ReconcileTask? && !t.point.In? && !t.point.WantPeer?
    requires t.point.ReadById? ==> !t.found
    ensures StaysHeld(w, RunReconcile(w, t, out))
  {
  }

  lemma RecoverShape(w: World, t: Thread, out: Outcome)
    requires Ident(w) && t.task.RecoverTask? && !t.point.In? && !t.point.RvList?
    requires t.point.RvEraseNext? ==> t.ids <= DeletingIds(t.snap)
    requires t.point.RvActivateNext? ==> t.ids <= WantedIds(t.snap)
    ensures var (eff, k) := RunRecover(w, t, out);
            && (k.Go? ==> k.t.task == t.task && k.t.snap == t.snap)
            && (eff.Skip? || eff.DropIface? || (eff.EraseRow? && eff.id in DeletingIds(t.snap))
                || (eff.SetRow? && eff.p.id in WantedIds(t.snap) && eff.p.id in w.rows
                    && eff.p == w.rows[eff.p.id].(status := Active)))
  {
  }

  lemma RecoverHeld(w: World, t: Thread, out: Outcome)
    requires Ident(w) && Held(w, t) && t.task.RecoverTask? && !t.point.In?
    requires t.point.RvEraseNext? ==> t.ids <= DeletingIds(t.snap)
    requires t.point.RvActivateNext? ==> t.ids <= WantedIds(t.snap)
    ensures StaysHeld(w, RunRecover(w, t, out))
  {
    if t.point.RvList? {
      forall n ensures Repair.RowBetween(w.rows, w.rows, n) {}
    } else {
      RecoverShape(w, t, out);
      var (eff, k) := RunRecover(w, t, out);
      if eff.SetRow? || eff.EraseRow? { Repair.WriteBetween(w, t.snap, eff); }
    }
  }

  lemma TaskHeld(s: State, tid: Tid, out: Outcome)
    requires Inv(s) && Enabled(s, Run(tid, out)) && Held(s.w, s.threads[tid])
    requires !s.threads[tid].point.In? && !s.threads[tid].point.WantPeer?
    ensures StaysHeld(s.w, Micro(s.w, s.threads[tid], out))
  {
    var t := s.threads[tid];
    assert ThreadInv(s, tid, t);
    if t.task.CreateTask? { CreateHeld(s.w, t, out); }
    else if t.task.ReconcileTask? { ReconcileHeld(s.w, t, out); }
    else if t.task.RecoverTask? { RecoverHeld(s.w, t, out); }
    else { OtherTaskHeld(s.w, t, out); }
  }

  lemma OtherTaskHeld(w: World, t: Thread, out: Outcome)
    requires w.localAsn < U32 && ValidTask(t.task) && (t.task.UpdateTask? || t.task.DeleteTask? || t.task.TickTask?)
    requires !t.point.In? && !t.point.WantPeer?
    ensures StaysHeld(w, Micro(w, t, out))
  {
    var k := Micro(w, t, out).1;
    assert k.Go? ==> k.t.task == t.task by {
      if t.task.UpdateTask? { UpdateSame(w, t, out); } else if t.task.DeleteTask? { DeleteSame(w, t, out); }
    }
  }

  lemma UpdateSame(w: World, t: Thread, out: Outcome)
    requires w.localAsn < U32 && ValidTask(t.task) && t.task.UpdateTask?
    ensures var k := RunUpdate(w, t, out).1; k.Go? ==> k.t.task == t.task
  {
  }

  lemma DeleteSame(w: World, t: Thread, out: Outcome)
    requires t.task.DeleteTask?
    ensures var k := RunDelete(w, t, out).1; k.Go? ==> k.t.task == t.task
  {
  }

  lemma CallOwn(w: World, t: Thread, out: Outcome)
    requires w.localAsn < U32 && ValidTask(t.task) && Held(w, t) && t.point.In? && Sited(t, t.point.site)
    requires t.task.RecoverTask? ==> !t.point.sub.BirdList? && !t.point.sub.NftList?
    ensures StaysHeld(w, Micro(w, t, out))
  {
    CallHeld(w, t, t.point.sub, t.point.site, out);
  }

  lemma EntryHeld(w: World, t: Thread, out: Outcome)
    requires w.localAsn < U32 && ValidTask(t.task) && Held(w, t) && t.point.WantPeer?
    ensures StaysHeld(w, Micro(w, t, out))
  {
  }

  lemma CallSited(s: State, tid: Tid)
    requires Inv(s) && tid in s.threads && s.threads[tid].point.In?
    ensures var t := s.threads[tid];
            Sited(t, t.point.site) && (t.task.RecoverTask? ==> !t.point.sub.BirdList? && !t.point.sub.NftList?)
  {
    assert ThreadInv(s, tid, s.threads[tid]);
  }

  lemma OwnHeld(s: State, tid: Tid, out: Outcome)
    requires Inv(s) && Enabled(s, Run(tid, out)) && Held(s.w, s.threads[tid])
    ensures StaysHeld(s.w, Micro(s.w, s.threads[tid], out))
  {
    var t := s.threads[tid];
    if t.point.In? {
      CallSited(s, tid);
      CallOwn(s.w, t, out);
    } else if t.point.WantPeer? {
      EntryHeld(s.w, t, out);
    } else {
      TaskHeld(s, tid, out);
    }
  }

  lemma OtherHeld(s: State, tid: Tid, out: Outcome, u: Tid)
    requires Inv(s) && AllHeld(s) && Enabled(s, Run(tid, out)) && u in s.threads && u != tid
    ensures Held(Apply(s.w, Micro(s.w, s.threads[tid], out).0), s.threads[u])
  {
    assert Held(s.w, s.threads[u]) && ThreadInv(s, u, s.threads[u]);
    assert tid != Recovery && u != Recovery;
    if LocksRow(s.threads[u]) { OthersRow(s, tid, out, u); }
    HeldSame(s.w, Apply(s.w, Micro(s.w, s.threads[tid], out).0), s.threads[u]);
  }

  lemma RunKeepsHeld(s: State, tid: Tid, out: Outcome)
    requires Inv(s) && AllHeld(s) && Enabled(s, Run(tid, out))
    ensures AllHeld(Exec(s, Run(tid, out)))
  {
    var s' := Exec(s, Run(tid, out));
    var (eff, k) := Micro(s.w, s.threads[tid], out);
    assert s' == Continue(s, tid, Apply(s.w, eff), k);
    OwnHeld(s, tid, out);
    forall u | u in s'.threads && u != tid ensures Held(s'.w, s'.threads[u]) {
      OtherHeld(s, tid, out, u);
    }
  }

  lemma ServiceKeepsHeld(s: State, step: Step)
    requires Inv(s) && AllHeld(s) && Enabled(s, step) && ApiOnly.ServiceStep(step)
    ensures AllHeld(Exec(s, step))
  {
    if step.Run? {
      RunKeepsHeld(s, step.tid, step.out);
    } else {
      var s' := Exec(s, step);
      assert step.Reboot? || s'.w.rows == s.w.rows;
      forall u | u in s'.threads ensures Held(s'.w, s'.threads[u]) {
        if u in s.threads && s'.threads[u] == s.threads[u] { assert Held(s.w, s.threads[u]); }
      }
    }
  }

  ghost predicate ServiceOnly(steps: seq<Step>, i: nat)
    requires i <= |steps|
  {
    forall k :: 0 <= k < i ==> ApiOnly.ServiceStep(steps[k])
  }

  lemma {:induction false} RunHeld(states: seq<State>, steps: seq<Step>, i: nat)
    requires IsRun(states, steps) && Leftover(states[0]) && i < |states| && ServiceOnly(steps, i)
    ensures Inv(states[i]) && AllHeld(states[i])
  {
    SystemProof.RunInv(states, steps, i);
    if i > 0 {
      RunHeld(states, steps, i - 1);
      ServiceKeepsHeld(states[i - 1], steps[i - 1]);
    }
  }

  /** The action of an update or delete request for this very peer. */
  predicate RequestedFor(s: State, step: Step, key: Key) {
    && step.Run? && step.tid.Api? && step.tid in s.threads
    && var task := s.threads[step.tid].task; (task.UpdateTask? || task.DeleteTask?) && TaskKey(task) == key
  }

  lemma WritesRequested(s: State, tid: Tid, out: Outcome, n: nat)
    requires Inv(s) && AllHeld(s) && Enabled(s, Run(tid, out)) && n in s.w.rows && Writing(s.w, s.threads[tid], n)
    requires s.threads[tid].task.UpdateTask? || s.threads[tid].task.DeleteTask?
    ensures RequestedFor(s, Run(tid, out), KeyOf(s.w.rows[n]))
  {
    assert ThreadInv(s, tid, s.threads[tid]);
    WriterLocks(s, tid, n);
  }

  lemma OnlyRequestsActivate(s: State, tid: Tid, out: Outcome, n: nat)
    requires Inv(s) && AllHeld(s) && Enabled(s, Run(tid, out)) && Off(s.w, n) && Activating(s.threads[tid], n)
    ensures s.threads[tid].task.UpdateTask? || s.threads[tid].task.DeleteTask?
  {
    var t := s.threads[tid];
    assert ThreadInv(s, tid, t) && Held(s.w, t);
    assert t.task.RecoverTask? && !t.point.RvList? ==> Repair.RowBetween(t.snap, s.w.rows, n);
  }

  /** Without other writers, a row that is switched off is switched on again only by an update or delete
      request for its own (ASN, name). */
  lemma OnlyRequestsSwitchOn(states: seq<State>, steps: seq<Step>, i: nat, n: nat)
    requires IsRun(states, steps) && Leftover(states[0]) && i < |steps| && ServiceOnly(steps, i + 1)
    requires Off(states[i].w, n) && On(states[i + 1].w, n)
    ensures RequestedFor(states[i], steps[i], KeyOf(states[i].w.rows[n]))
  {
    RunHeld(states, steps, i);
    var s, step := states[i], steps[i];
    assert ApiOnly.ServiceStep(step);
    SwitchedOnExactly(s, step, n);
    if Activating(s.threads[step.tid], n) { OnlyRequestsActivate(s, step.tid, step.out, n); }
    WritesRequested(s, step.tid, step.out, n);
  }

  lemma OnlyRequestsEnd(s: State, tid: Tid, out: Outcome, n: nat)
    requires Inv(s) && AllHeld(s) && Enabled(s, Run(tid, out)) && IsDisabled(s.w, n) && Writing(s.w, s.threads[tid], n)
    ensures s.threads[tid].task.UpdateTask? || s.threads[tid].task.DeleteTask?
  {
    var t := s.threads[tid];
    assert ThreadInv(s, tid, t) && Held(s.w, t);
    assert t.task.RecoverTask? && !t.point.RvList? ==> Repair.RowBetween(t.snap, s.w.rows, n);
    if Activating(t, n) { OnlyRequestsActivate(s, tid, out, n); }
  }

  lemma DisabledStep(s: State, step: Step, n: nat)
    requires Inv(s) && AllHeld(s) && Enabled(s, step) && ApiOnly.ServiceStep(step) && IsDisabled(s.w, n)
    requires !RequestedFor(s, step, KeyOf(s.w.rows[n]))
    ensures IsDisabled(Exec(s, step).w, n)
  {
    DisabledEndsExactly(s, step, n);
    if EndsDisabled(s, step, n) {
      OnlyRequestsEnd(s, step.tid, step.out, n);
      WritesRequested(s, step.tid, step.out, n);
    }
  }

  /** Without other writers and without an update or delete request for its (ASN, name), a disabled row stays
      disabled, whatever crashes and failed calls there are. */
  lemma DisabledStays(states: seq<State>, steps: seq<Step>, i: nat, j: nat, n: nat)
    requires IsRun(states, steps) && Leftover(states[0]) && i <= j < |states| && ServiceOnly(steps, j)
    requires IsDisabled(states[i].w, n)
    requires forall k :: i <= k < j && n in states[k].w.rows ==>
                           !RequestedFor(states[k], steps[k], KeyOf(states[k].w.rows[n]))
    ensures IsDisabled(states[j].w, n)
  {
    forall k | i <= k < j ensures LeavesDisabled(states, k, n) {
      LeftDisabled(states, steps, k, n);
    }
    DisabledAlong(states, i, j, n);
  }

  predicate LeavesDisabled(states: seq<State>, k: nat, n: nat)
    requires k + 1 < |states|
  {
    IsDisabled(states[k].w, n) ==> IsDisabled(states[k + 1].w, n)
  }

  lemma LeftDisabled(states: seq<State>, steps: seq<Step>, k: nat, n: nat)
    requires IsRun(states, steps) && Leftover(states[0]) && k < |steps| && ServiceOnly(steps, k + 1)
    requires n in states[k].w.rows ==> !RequestedFor(states[k], steps[k], KeyOf(states[k].w.rows[n]))
    ensures LeavesDisabled(states, k, n)
  {
    RunHeld(states, steps, k);
    if IsDisabled(states[k].w, n) {
      assert ApiOnly.ServiceStep(steps[k]);
      DisabledStep(states[k], steps[k], n);
    }
  }

  lemma {:induction false} DisabledAlong(states: seq<State>, i: nat, j: nat, n: nat)
    requires i <= j < |states| && IsDisabled(states[i].w, n)
    requires forall k :: i <= k < j ==> LeavesDisabled(states, k, n)
    ensures IsDisabled(states[j].w, n)
  {
    if i < j {
      DisabledAlong(states, i, j - 1, n);
      assert LeavesDisabled(states, j - 1, n);
    }
  }
}
