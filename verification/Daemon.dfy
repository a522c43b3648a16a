/** What BIRD has loaded, beside the running service. A synchronisation that finds the files as it wants them
    does not reload, so a reload that was once left out is not made up for. These are the steps that can leave one
    out; without them the daemon is in step whenever the outbox is empty. */
module Daemon {
  import opened Peers
  import opened World
  import opened Machine
  import opened Invariant
  import SystemProof
  import Guarantees
  import RequestProof
  import ReconcilerProof

  /** The configuration the link shows. A missing link includes no file. */
  function Shows(w: World): Generation {
    if w.current.Some? then w.current.value else map[]
  }

  /** Between the switch of the link and the end of the reload or of the way back. */
  predicate InWindow(t: Thread) {
    t.point.In? && (t.point.sub.BirdReload? || t.point.sub.BirdRestore?)
  }

  predicate AtSwitch(t: Thread) {
    t.point.In? && t.point.sub.BirdSwitch?
  }

  function Prior(t: Thread): Option<Generation>
    requires InWindow(t) || AtSwitch(t)
  {
    t.point.sub.prior
  }

  // ---- reloads ----

  /** The step's call is a reload, and BIRD accepts it. Recovery reloads also when the files match. */
  predicate Reloads(s: State, step: Step) {
    && step.Run? && step.tid in s.threads && step.out.Succeed? && s.threads[step.tid].point.In?
    && var t := s.threads[step.tid];
       t.point.sub.BirdReload?
       || (t.point.sub.BirdCompare? && t.point.site == RvBird && !BadIfaceName(t.snap)
           && s.w.current == Some(DesiredGeneration(s.w.localAsn, t.snap)))
  }

  /** The link was put back, which is followed by a second reload. */
  predicate PutsBack(s: State, step: Step) {
    && step.Run? && step.tid in s.threads && step.out.Succeed? && s.threads[step.tid].point.In?
    && s.threads[step.tid].point.sub.BirdRestore?
  }

  /** BIRD loads what the link shows; a reboot starts it on the empty directory. */
  predicate LoadStep(s: State, step: Step, again: bool) {
    Reloads(s, step) || (PutsBack(s, step) && again) || step.Reboot?
  }

  /** What is loaded after the step; `again` is whether BIRD accepts the second reload. A refused reload
      leaves the daemon as it is. */
  ghost function Loads(s: State, step: Step, again: bool, loaded: Generation): Generation
    requires Enabled(s, step)
  {
    if LoadStep(s, step, again) then Shows(Exec(s, step).w) else loaded
  }

  ghost predicate IsDaemonRun(states: seq<State>, steps: seq<Step>, again: seq<bool>, loaded: seq<Generation>) {
    && IsRun(states, steps) && |again| == |steps| && |loaded| == |states|
    && forall i :: 0 <= i < |steps| ==> loaded[i + 1] == Loads(states[i], steps[i], again[i], loaded[i])
  }

  // ---- being in step ----

  predicate InStep(w: World, loaded: Generation) {
    loaded == Shows(w)
  }

  ghost predicate Open(s: State) {
    exists tid :: tid in s.threads && InWindow(s.threads[tid])
  }

  predicate Remembers(w: World, t: Thread, loaded: Generation) {
    && (InWindow(t) && Prior(t).Some? ==> loaded == Prior(t).value)
    && (AtSwitch(t) && Prior(t).Some? ==> w.current == Prior(t))
  }

  /** In step, except while a thread is between switch and reload; that thread knows the way back. */
  ghost predicate Tracking(s: State, loaded: Generation) {
    && (Open(s) || InStep(s.w, loaded))
    && forall tid :: tid in s.threads ==> Remembers(s.w, s.threads[tid], loaded)
  }

  /** Steps that change the link and leave out the reload that belongs to it: a switch whose flush fails, a
      way back that fails or has nowhere to go, and the end of a thread in between. */
  predicate Lapses(s: State, step: Step, again: bool) {
    match step
    case Run(tid, out) =>
      && tid in s.threads
      && var t := s.threads[tid];
         || (AtSwitch(t) && out.FailAfter?)
         || (InWindow(t) && t.point.sub.BirdRestore? && (out.Fail? || (Prior(t).None? && !(out.Succeed? && again))))
    case Cancel(n) => Api(n) in s.threads && InWindow(s.threads[Api(n)])
    case Crash => exists tid :: tid in s.threads && InWindow(s.threads[tid])
    case _ => false
  }

  // ---- one action ----

  predicate Apart(k: Cont) {
    k.Go? ==> !InWindow(k.t) && !AtSwitch(k.t)
  }

  lemma ReturnApart(t: Thread, site: Site, ok: bool)
    ensures Apart(Return(t, site, ok)) && Apart(BirdDone(t, site))
  {
  }

  lemma SwitchActs(w: World, t: Thread, out: Outcome)
    requires AtSwitch(t)
    ensures var (eff, k) := RunBird(w, t, t.point.sub, t.point.site, out);
            && eff == (if out.Fail? then Skip else SetCurrent(Some(DesiredGeneration(w.localAsn, t.snap))))
            && (if out.Succeed? then k.Go? && InWindow(k.t) && Prior(k.t) == Prior(t) else Apart(k))
  {
    ReturnApart(t, t.point.site, false);
  }

  lemma ReloadActs(w: World, t: Thread, out: Outcome)
    requires InWindow(t) && t.point.sub.BirdReload?
    ensures var (eff, k) := RunBird(w, t, t.point.sub, t.point.site, out);
            eff == Skip && if out.Succeed? then Apart(k) else k.Go? && InWindow(k.t) && Prior(k.t) == Prior(t)
  {
    ReturnApart(t, t.point.site, true);
  }

  lemma RestoreActs(w: World, t: Thread, out: Outcome)
    requires InWindow(t) && t.point.sub.BirdRestore?
    ensures var (eff, k) := RunBird(w, t, t.point.sub, t.point.site, out);
            eff == (if out.Fail? then Skip else SetCurrent(Prior(t))) && Apart(k)
  {
    ReturnApart(t, t.point.site, false);
  }

  lemma CompareActs(w: World, t: Thread, sub: Sub, site: Site, out: Outcome)
    requires sub.BirdList? || sub.BirdWait? || sub.BirdCompare? || sub.BirdPeek?
    ensures var (eff, k) := RunBird(w, t, sub, site, out);
            && (eff == Skip || (w.current.None? && eff == SetCurrent(Some(map[]))))
            && (k.Go? ==> !InWindow(k.t) && (AtSwitch(k.t) && Prior(k.t).Some? ==> Prior(k.t) == w.current))
  {
    ReturnApart(t, site, true);
    ReturnApart(t, site, false);
  }

  /** Everything else leaves the link alone. */
  lemma OthersAct(w: World, t: Thread, out: Outcome)
    requires w.localAsn < U32 && ValidTask(t.task) && !(t.point.In? && BirdSub(t.point.sub))
    ensures var (eff, k) := Micro(w, t, out); !eff.SetCurrent? && Apart(k)
  {
    if t.point.In? {
      LinksAct(w, t, t.point.sub, t.point.site, out);
    } else if !t.point.WantPeer? {
      TasksAct(w, t, out);
    }
  }

  lemma TasksAct(w: World, t: Thread, out: Outcome)
    requires w.localAsn < U32 && ValidTask(t.task) && !t.point.In? && !t.point.WantPeer?
    ensures var (eff, k) := Micro(w, t, out); !eff.SetCurrent? && Apart(k)
  {
    match t.task {
      case CreateTask(_) => CreateActs(w, t, out);
      case UpdateTask(_) => UpdateActs(w, t, out);
      case DeleteTask(_) => DeleteActs(w, t, out);
      case ReconcileTask => ReconcileActs(w, t, out);
      case TickTask =>
      case RecoverTask => RecoverActs(w, t, out);
    }
  }

  lemma CreateActs(w: World, t: Thread, out: Outcome)
    requires w.localAsn < U32 && ValidTask(t.task) && t.task.CreateTask? && !t.point.In?
    ensures var (eff, k) := RunCreate(w, t, out); !eff.SetCurrent? && Apart(k)
  {
  }

  lemma UpdateActs(w: World, t: Thread, out: Outcome)
    requires w.localAsn < U32 && ValidTask(t.task) && t.task.UpdateTask? && !t.point.In?
    ensures var (eff, k) := RunUpdate(w, t, out); !eff.SetCurrent? && Apart(k)
  {
  }

  lemma DeleteActs(w: World, t: Thread, out: Outcome)
    requires t.task.DeleteTask? && !t.point.In?
    ensures var (eff, k) := RunDelete(w, t, out); !eff.SetCurrent? && Apart(k)
  {
  }

  lemma ReconcileActs(w: World, t: Thread, out: Outcome)
    requires t.task.ReconcileTask? && !t.point.In?
    ensures var (eff, k) := RunReconcile(w, t, out); !eff.SetCurrent? && Apart(k)
  {
  }

  lemma RecoverActs(w: World, t: Thread, out: Outcome)
    requires t.task.RecoverTask? && !t.point.In?
    ensures var (eff, k) := RunRecover(w, t, out); !eff.SetCurrent? && Apart(k)
  {
  }

  lemma LinksAct(w: World, t: Thread, sub: Sub, site: Site, out: Outcome)
    requires !BirdSub(sub)
    ensures var (eff, k) := RunSub(w, t, sub, site, out); !eff.SetCurrent? && Apart(k)
  {
    if NftSub(sub) { NftActs(w, t, sub, site, out); } else { LinkActs(w, t, sub, site, out); }
  }

  lemma NftActs(w: World, t: Thread, sub: Sub, site: Site, out: Outcome)
    ensures var (eff, k) := RunNft(w, t, sub, site, out); !eff.SetCurrent? && (NftSub(sub) ==> Apart(k))
  {
    ReturnApart(t, site, true);
    ReturnApart(t, site, false);
  }

  lemma LinkActs(w: World, t: Thread, sub: Sub, site: Site, out: Outcome)
    ensures var (eff, k) := RunLink(w, t, sub, site, out); !eff.SetCurrent? && Apart(k)
  {
    if sub.DropLink? { ReturnApart(t, site, true); }
    ReturnApart(t, site, false);
  }

  // ---- one step ----

  /** The bird lock: whoever is about to switch, reload or go back is alone in that. */
  lemma Alone(s: State, tid: Tid, u: Tid)
    requires Mutex(s) && tid in s.threads && u in s.threads && u != tid
    requires InWindow(s.threads[tid]) || AtSwitch(s.threads[tid])
    ensures !InWindow(s.threads[u]) && !AtSwitch(s.threads[u])
  {
    var t, t' := s.threads[tid], s.threads[u];
    assert Holds(t, BirdLock) && (InWindow(t') || AtSwitch(t') ==> Holds(t', BirdLock));
  }

  /** The thread has moved on to `k` with effect `eff`; the others stand still. */
  ghost predicate Moved(s: State, tid: Tid, eff: Eff, k: Cont, s': State) {
    && tid in s.threads && s'.w == Apply(s.w, eff)
    && (forall u :: u in s'.threads && u != tid ==> u in s.threads && s'.threads[u] == s.threads[u])
    && (tid in s'.threads ==> k.Go? && s'.threads[tid] == k.t)
    && (k.Go? ==> tid in s'.threads)
    && (!k.Die? ==> forall u :: u in s.threads && u != tid ==> u in s'.threads)
    && (k.Die? ==> s.threads.Keys == {tid})
  }

  lemma RunMoves(s: State, tid: Tid, out: Outcome)
    requires Inv(s) && Enabled(s, Run(tid, out))
    ensures var (eff, k) := Micro(s.w, s.threads[tid], out); Moved(s, tid, eff, k, Exec(s, Run(tid, out)))
  {
    var (eff, k) := Micro(s.w, s.threads[tid], out);
    if k.Die? { OnlyRecoveryDies(s, tid, out); }
    ContinueMoves(s, tid, eff, k);
  }

  lemma ContinueMoves(s: State, tid: Tid, eff: Eff, k: Cont)
    requires tid in s.threads && (k.Die? ==> s.threads.Keys == {tid})
    ensures Moved(s, tid, eff, k, Continue(s, tid, Apply(s.w, eff), k))
  {
  }

  lemma OnlyRecoveryDies(s: State, tid: Tid, out: Outcome)
    requires Inv(s) && Enabled(s, Run(tid, out)) && Micro(s.w, s.threads[tid], out).1.Die?
    ensures s.threads.Keys == {tid}
  {
    assert ThreadInv(s, tid, s.threads[tid]);
    SystemProof.RetiringThere(s);
    match tid {
      case Api(_) => RequestProof.RequestStep(s, tid, out);
      case Reconciler => ReconcilerProof.ReconcilerStep(s, s.threads[tid], out);
      case Ticker => SystemProof.TickerStep(s.w, s.threads[tid], out);
      case Recovery =>
    }
  }

  /** A thread apart from the switch leaves everything as it is. */
  lemma ApartTracks(s: State, tid: Tid, eff: Eff, k: Cont, s': State, loaded: Generation)
    requires Moved(s, tid, eff, k, s') && Tracking(s, loaded) && !eff.SetCurrent? && Apart(k)
    requires !InWindow(s.threads[tid]) && !AtSwitch(s.threads[tid])
    ensures Tracking(s', loaded)
  {
    assert s'.w.current == s.w.current;
    if Open(s) {
      var u :| u in s.threads && InWindow(s.threads[u]);
      assert u in s'.threads && InWindow(s'.threads[u]);
    }
    forall u | u in s'.threads ensures Remembers(s'.w, s'.threads[u], loaded) {
      assert u != tid ==> Remembers(s.w, s.threads[u], loaded);
    }
  }

  lemma CompareTracks(s: State, tid: Tid, eff: Eff, k: Cont, s': State, loaded: Generation, loaded': Generation)
    requires Moved(s, tid, eff, k, s') && Tracking(s, loaded)
    requires !InWindow(s.threads[tid]) && !AtSwitch(s.threads[tid])
    requires eff == Skip || (s.w.current.None? && eff == SetCurrent(Some(map[])))
    requires k.Go? ==> !InWindow(k.t) && (AtSwitch(k.t) && Prior(k.t).Some? ==> Prior(k.t) == s.w.current)
    requires loaded' == loaded || (loaded' == Shows(s'.w) && s.threads.Keys == {tid})
    ensures Tracking(s', loaded')
  {
    assert Shows(s'.w) == Shows(s.w);
    if Open(s) && s.threads.Keys != {tid} {
      var u :| u in s.threads && InWindow(s.threads[u]);
      assert u in s'.threads && InWindow(s'.threads[u]);
    }
    forall u | u in s'.threads ensures Remembers(s'.w, s'.threads[u], loaded') {
      assert u != tid ==> u in s.threads && Remembers(s.w, s.threads[u], loaded);
      assert u == tid && AtSwitch(k.t) && Prior(k.t).Some? ==> eff == Skip;
    }
  }

  lemma WindowTracks(s: State, tid: Tid, eff: Eff, k: Cont, s': State, loaded: Generation, loaded': Generation)
    requires Mutex(s) && Moved(s, tid, eff, k, s') && Tracking(s, loaded)
    requires InWindow(s.threads[tid]) || AtSwitch(s.threads[tid])
    requires if k.Go? && InWindow(k.t) then loaded' == loaded && (Prior(k.t).Some? ==> loaded == Prior(k.t).value)
             else Apart(k) && InStep(s'.w, loaded')
    ensures Tracking(s', loaded')
  {
    forall u | u in s'.threads ensures Remembers(s'.w, s'.threads[u], loaded') {
      if u != tid { Alone(s, tid, u); }
    }
    if k.Go? && InWindow(k.t) { assert InWindow(s'.threads[tid]); }
  }

  lemma SwitchInStep(s: State, tid: Tid, loaded: Generation)
    requires Mutex(s) && Tracking(s, loaded) && tid in s.threads && AtSwitch(s.threads[tid])
    ensures InStep(s.w, loaded) && (Prior(s.threads[tid]).Some? ==> loaded == Prior(s.threads[tid]).value)
  {
    if Open(s) {
      var u :| u in s.threads && InWindow(s.threads[u]);
      Alone(s, tid, u);
    }
    assert Remembers(s.w, s.threads[tid], loaded);
  }

  lemma SwitchTracks(s: State, tid: Tid, out: Outcome, again: bool, loaded: Generation, eff: Eff, k: Cont, s': State)
    requires Mutex(s) && Moved(s, tid, eff, k, s') && Tracking(s, loaded) && AtSwitch(s.threads[tid])
    requires !out.FailAfter?
    requires s.w.localAsn < U32
    requires (eff, k) == RunBird(s.w, s.threads[tid], s.threads[tid].point.sub, s.threads[tid].point.site, out)
    ensures Tracking(s', loaded)
  {
    SwitchActs(s.w, s.threads[tid], out);
    SwitchInStep(s, tid, loaded);
    WindowTracks(s, tid, eff, k, s', loaded, loaded);
  }

  lemma ReloadTracks(s: State, tid: Tid, out: Outcome, loaded: Generation, eff: Eff, k: Cont, s': State)
    requires Mutex(s) && Moved(s, tid, eff, k, s') && Tracking(s, loaded)
    requires InWindow(s.threads[tid]) && s.threads[tid].point.sub.BirdReload?
    requires (eff, k) == RunBird(s.w, s.threads[tid], s.threads[tid].point.sub, s.threads[tid].point.site, out)
    ensures Tracking(s', if out.Succeed? then Shows(s'.w) else loaded)
  {
    ReloadActs(s.w, s.threads[tid], out);
    assert Remembers(s.w, s.threads[tid], loaded);
    WindowTracks(s, tid, eff, k, s', loaded, if out.Succeed? then Shows(s'.w) else loaded);
  }

  lemma RestoreTracks(s: State, tid: Tid, out: Outcome, again: bool, loaded: Generation, eff: Eff, k: Cont, s': State)
    requires Mutex(s) && Moved(s, tid, eff, k, s') && Tracking(s, loaded)
    requires InWindow(s.threads[tid]) && s.threads[tid].point.sub.BirdRestore?
    requires !out.Fail? && (Prior(s.threads[tid]).None? ==> out.Succeed? && again)
    requires (eff, k) == RunBird(s.w, s.threads[tid], s.threads[tid].point.sub, s.threads[tid].point.site, out)
    ensures Tracking(s', if out.Succeed? && again then Shows(s'.w) else loaded)
  {
    RestoreActs(s.w, s.threads[tid], out);
    assert Remembers(s.w, s.threads[tid], loaded);
    WindowTracks(s, tid, eff, k, s', loaded, if out.Succeed? && again then Shows(s'.w) else loaded);
  }

  lemma BirdTracks(s: State, tid: Tid, out: Outcome, again: bool, loaded: Generation)
    requires Inv(s) && Tracking(s, loaded) && Enabled(s, Run(tid, out)) && !Lapses(s, Run(tid, out), again)
    requires InWindow(s.threads[tid]) || AtSwitch(s.threads[tid])
    ensures Tracking(Exec(s, Run(tid, out)), Loads(s, Run(tid, out), again, loaded))
  {
    RunMoves(s, tid, out);
    WindowLoads(s, tid, out, again, loaded);
    WindowRuns(s, tid, out, again, loaded, Exec(s, Run(tid, out)));
  }

  /** What is loaded after an action between switch and reload. */
  function WindowLoad(t: Thread, out: Outcome, again: bool, w': World, loaded: Generation): Generation {
    if out.Succeed? && t.point.In? && (t.point.sub.BirdReload? || (t.point.sub.BirdRestore? && again))
    then Shows(w') else loaded
  }

  lemma WindowLoads(s: State, tid: Tid, out: Outcome, again: bool, loaded: Generation)
    requires Enabled(s, Run(tid, out)) && (InWindow(s.threads[tid]) || AtSwitch(s.threads[tid]))
    ensures Loads(s, Run(tid, out), again, loaded)
         == WindowLoad(s.threads[tid], out, again, Exec(s, Run(tid, out)).w, loaded)
  {
  }

  lemma WindowRuns(s: State, tid: Tid, out: Outcome, again: bool, loaded: Generation, s': State)
    requires Mutex(s) && Tracking(s, loaded) && tid in s.threads && s.w.localAsn < U32
    requires ValidTask(s.threads[tid].task)
    requires InWindow(s.threads[tid]) || AtSwitch(s.threads[tid])
    requires !Lapses(s, Run(tid, out), again)
    requires var (eff, k) := Micro(s.w, s.threads[tid], out); Moved(s, tid, eff, k, s')
    ensures Tracking(s', WindowLoad(s.threads[tid], out, again, s'.w, loaded))
  {
    var t := s.threads[tid];
    var (eff, k) := Micro(s.w, t, out);
    if AtSwitch(t) { SwitchTracks(s, tid, out, again, loaded, eff, k, s'); }
    else if t.point.sub.BirdReload? { ReloadTracks(s, tid, out, loaded, eff, k, s'); }
    else { RestoreTracks(s, tid, out, again, loaded, eff, k, s'); }
  }

  /** What is loaded changes here only by recovery's reload of matching files. */
  lemma OtherLoads(s: State, tid: Tid, out: Outcome, again: bool, loaded: Generation)
    requires Inv(s) && Enabled(s, Run(tid, out)) && !InWindow(s.threads[tid]) && !AtSwitch(s.threads[tid])
    ensures var loaded' := Loads(s, Run(tid, out), again, loaded);
            loaded' == loaded || (loaded' == Shows(Exec(s, Run(tid, out)).w) && s.threads.Keys == {tid})
    ensures !(s.threads[tid].point.In? && BirdSub(s.threads[tid].point.sub)) ==>
              Loads(s, Run(tid, out), again, loaded) == loaded
  {
    RecoverySite(s, tid);
  }

  lemma CompareRuns(s: State, tid: Tid, out: Outcome, s': State, loaded: Generation, loaded': Generation)
    requires Tracking(s, loaded) && tid in s.threads && s.w.localAsn < U32 && ValidTask(s.threads[tid].task)
    requires !InWindow(s.threads[tid]) && !AtSwitch(s.threads[tid])
    requires s.threads[tid].point.In? && BirdSub(s.threads[tid].point.sub)
    requires var (eff, k) := Micro(s.w, s.threads[tid], out); Moved(s, tid, eff, k, s')
    requires loaded' == loaded || (loaded' == Shows(s'.w) && s.threads.Keys == {tid})
    ensures Tracking(s', loaded')
  {
    var t := s.threads[tid];
    var (eff, k) := Micro(s.w, t, out);
    CompareActs(s.w, t, t.point.sub, t.point.site, out);
    CompareTracks(s, tid, eff, k, s', loaded, loaded');
  }

  lemma ApartRuns(s: State, tid: Tid, out: Outcome, s': State, loaded: Generation)
    requires Tracking(s, loaded) && tid in s.threads && s.w.localAsn < U32 && ValidTask(s.threads[tid].task)
    requires !(s.threads[tid].point.In? && BirdSub(s.threads[tid].point.sub))
    requires var (eff, k) := Micro(s.w, s.threads[tid], out); Moved(s, tid, eff, k, s')
    ensures Tracking(s', loaded)
  {
    var t := s.threads[tid];
    var (eff, k) := Micro(s.w, t, out);
    OthersAct(s.w, t, out);
    ApartTracks(s, tid, eff, k, s', loaded);
  }

  lemma OtherRunTracks(s: State, tid: Tid, out: Outcome, again: bool, loaded: Generation)
    requires Inv(s) && Tracking(s, loaded) && Enabled(s, Run(tid, out))
    requires !InWindow(s.threads[tid]) && !AtSwitch(s.threads[tid])
    ensures Tracking(Exec(s, Run(tid, out)), Loads(s, Run(tid, out), again, loaded))
  {
    RunMoves(s, tid, out);
    OtherLoads(s, tid, out, again, loaded);
    var s', loaded' := Exec(s, Run(tid, out)), Loads(s, Run(tid, out), again, loaded);
    if s.threads[tid].point.In? && BirdSub(s.threads[tid].point.sub) {
      CompareRuns(s, tid, out, s', loaded, loaded');
    } else {
      ApartRuns(s, tid, out, s', loaded);
    }
  }

  lemma RecoverySite(s: State, tid: Tid)
    requires Inv(s) && tid in s.threads
    ensures s.threads[tid].point.In? && s.threads[tid].point.site == RvBird ==> s.threads.Keys == {tid}
  {
    assert ThreadInv(s, tid, s.threads[tid]);
  }

  /** Without a lapse the daemon stays in step. */
  lemma StepTracks(s: State, step: Step, again: bool, loaded: Generation)
    requires Inv(s) && Tracking(s, loaded) && Enabled(s, step) && !Lapses(s, step, again)
    ensures Tracking(Exec(s, step), Loads(s, step, again, loaded))
  {
    if step.Run? {
      var t := s.threads[step.tid];
      if InWindow(t) || AtSwitch(t) { BirdTracks(s, step.tid, step.out, again, loaded); }
      else { OtherRunTracks(s, step.tid, step.out, again, loaded); }
    } else {
      OutsideTracks(s, step, again, loaded);
    }
  }

  /** Steps that neither end a thread in between nor touch the link. */
  lemma OutsideTracks(s: State, step: Step, again: bool, loaded: Generation)
    requires Inv(s) && Tracking(s, loaded) && Enabled(s, step) && !step.Run? && !Lapses(s, step, again)
    ensures Tracking(Exec(s, step), Loads(s, step, again, loaded))
  {
    if step.Crash? || step.Reboot? || step.Boot? {
      StopTracks(s, step, again, loaded);
    } else {
      OthersTrack(s, step, again, loaded);
    }
  }

  lemma OthersTrack(s: State, step: Step, again: bool, loaded: Generation)
    requires Tracking(s, loaded) && Enabled(s, step) && !step.Run? && !Lapses(s, step, again)
    requires !step.Crash? && !step.Reboot? && !step.Boot?
    ensures Tracking(Exec(s, step), Loads(s, step, again, loaded))
  {
    JoinTracks(s, step, Exec(s, step));
    StandTracks(s, Exec(s, step), loaded);
  }

  lemma StopTracks(s: State, step: Step, again: bool, loaded: Generation)
    requires Inv(s) && Tracking(s, loaded) && Enabled(s, step) && !Lapses(s, step, again)
    requires step.Crash? || step.Reboot? || step.Boot?
    ensures Tracking(Exec(s, step), Loads(s, step, again, loaded))
  {
  }

  /** Threads join outside the switch, or leave from there. */
  ghost predicate Joined(s: State, s': State) {
    && s'.w.current == s.w.current
    && (forall u :: u in s'.threads && !(u in s.threads && s'.threads[u] == s.threads[u]) ==>
                      !InWindow(s'.threads[u]) && !AtSwitch(s'.threads[u]))
    && forall u :: u in s.threads && InWindow(s.threads[u]) ==> u in s'.threads && s'.threads[u] == s.threads[u]
  }

  lemma JoinTracks(s: State, step: Step, s': State)
    requires Enabled(s, step) && s' == Exec(s, step) && !step.Run? && !Lapses(s, step, false)
    requires !step.Crash? && !step.Reboot? && !step.Boot?
    ensures Joined(s, s')
  {
    if step.Submit? || step.StartReconcile? || step.StartTick? { EnterTracks(s, step, s'); }
  }

  lemma EnterTracks(s: State, step: Step, s': State)
    requires Enabled(s, step) && s' == Exec(s, step) && (step.Submit? || step.StartReconcile? || step.StartTick?)
    ensures Joined(s, s')
  {
  }

  lemma StandTracks(s: State, s': State, loaded: Generation)
    requires Tracking(s, loaded) && Joined(s, s')
    ensures Tracking(s', loaded)
  {
    if Open(s) {
      var u :| u in s.threads && InWindow(s.threads[u]);
      assert u in s'.threads && InWindow(s'.threads[u]);
    }
    forall u | u in s'.threads ensures Remembers(s'.w, s'.threads[u], loaded) {
      assert u in s.threads && s'.threads[u] == s.threads[u] ==> Remembers(s.w, s.threads[u], loaded);
    }
  }

  // ---- what a lapse leaves ----

  /** A switch whose flush fails ends the synchronisation: the daemon stays in step exactly if the new files are
      those it has loaded. */
  lemma UnflushedSwitch(s: State, tid: Tid, again: bool, loaded: Generation)
    requires Inv(s) && Tracking(s, loaded) && Enabled(s, Run(tid, FailAfter)) && AtSwitch(s.threads[tid])
    ensures var step := Run(tid, FailAfter);
            InStep(Exec(s, step).w, Loads(s, step, again, loaded))
            <==> DesiredGeneration(s.w.localAsn, s.threads[tid].snap) == Shows(s.w)
  {
    SwitchInStep(s, tid, loaded);
    UnflushedShows(s, tid);
    assert Loads(s, Run(tid, FailAfter), again, loaded) == loaded;
  }

  lemma UnflushedShows(s: State, tid: Tid)
    requires Enabled(s, Run(tid, FailAfter)) && AtSwitch(s.threads[tid])
    ensures Shows(Exec(s, Run(tid, FailAfter)).w) == DesiredGeneration(s.w.localAsn, s.threads[tid].snap)
  {
    SwitchWorld(s, tid, FailAfter);
  }

  lemma SwitchWorld(s: State, tid: Tid, out: Outcome)
    requires Enabled(s, Run(tid, out)) && AtSwitch(s.threads[tid]) && !out.Fail?
    ensures Exec(s, Run(tid, out)).w.current == Some(DesiredGeneration(s.w.localAsn, s.threads[tid].snap))
  {
    SwitchActs(s.w, s.threads[tid], out);
  }

  /** A lapse in the window that leaves the link where it is. */
  predicate Stranded(s: State, step: Step, tid: Tid) {
    && tid in s.threads && InWindow(s.threads[tid])
    && (step.Crash? || (tid.Api? && step == Cancel(tid.n))
        || (step == Run(tid, Fail) && s.threads[tid].point.sub.BirdRestore?))
  }

  /** A lapse in the window that removes the link: it could not be read before, and no reload follows. */
  predicate Unlinked(s: State, step: Step, again: bool, tid: Tid) {
    && tid in s.threads && InWindow(s.threads[tid]) && s.threads[tid].point.sub.BirdRestore?
    && Prior(s.threads[tid]).None?
    && (step == Run(tid, FailAfter) || (step == Run(tid, Succeed) && !again))
  }

  /** These are all the lapses besides a switch whose flush fails. */
  lemma WindowLapses(s: State, step: Step, again: bool) returns (tid: Tid)
    requires Lapses(s, step, again) && !(step.Run? && AtSwitch(s.threads[step.tid]))
    ensures Stranded(s, step, tid) || Unlinked(s, step, again, tid)
  {
    match step {
      case Run(u, _) => tid := u;
      case Cancel(n) => tid := Api(n);
      case Crash => tid :| tid in s.threads && InWindow(s.threads[tid]);
    }
  }

  /** A thread that ends between switch and reload, and a way back that fails, keep link and daemon. If the old link
      was read, its files are loaded. */
  lemma StrandedKeeps(s: State, step: Step, again: bool, loaded: Generation, tid: Tid)
    requires Enabled(s, step) && Stranded(s, step, tid)
    ensures Shows(Exec(s, step).w) == Shows(s.w) && Loads(s, step, again, loaded) == loaded
    ensures Tracking(s, loaded) && Prior(s.threads[tid]).Some? ==> loaded == Prior(s.threads[tid]).value
  {
    assert Tracking(s, loaded) ==> Remembers(s.w, s.threads[tid], loaded);
    assert !LoadStep(s, step, again);
    if step.Run? { RestoredShows(s, tid, Fail); }
  }

  /** A link that is removed shows nothing, and the daemon stays as it is. */
  lemma UnlinkedShowsNone(s: State, step: Step, again: bool, loaded: Generation, tid: Tid)
    requires Enabled(s, step) && Unlinked(s, step, again, tid)
    ensures Shows(Exec(s, step).w) == map[] && Loads(s, step, again, loaded) == loaded
  {
    RestoredShows(s, tid, step.out);
    assert !LoadStep(s, step, again);
  }

  lemma RestoredShows(s: State, tid: Tid, out: Outcome)
    requires Enabled(s, Run(tid, out)) && InWindow(s.threads[tid]) && s.threads[tid].point.sub.BirdRestore?
    ensures Exec(s, Run(tid, out)).w.current == if out.Fail? then s.w.current else Prior(s.threads[tid])
  {
    RestoreActs(s.w, s.threads[tid], out);
  }

  /** Whatever is loaded, a later synchronisation that finds the files as it wants them does not reload. */
  lemma MatchingFilesDoNotReload(s: State, tid: Tid, out: Outcome, again: bool, loaded: Generation)
    requires Inv(s) && Enabled(s, Run(tid, out)) && tid != Recovery && s.threads[tid].point.In?
    requires s.threads[tid].point.sub.BirdCompare?
    requires s.w.current == Some(DesiredGeneration(s.w.localAsn, s.threads[tid].snap))
    ensures Loads(s, Run(tid, out), again, loaded) == loaded
    ensures Exec(s, Run(tid, out)).w.current == s.w.current
    ensures tid in Exec(s, Run(tid, out)).threads ==> Apart(Go(Exec(s, Run(tid, out)).threads[tid]))
  {
    Unloaded(s, tid, out, again, loaded);
    MatchEnds(s, tid, out, Exec(s, Run(tid, out)));
  }

  lemma MatchEnds(s: State, tid: Tid, out: Outcome, s': State)
    requires Enabled(s, Run(tid, out)) && s' == Exec(s, Run(tid, out))
    requires s.threads[tid].point.In? && s.threads[tid].point.sub.BirdCompare?
    requires s.w.current == Some(DesiredGeneration(s.w.localAsn, s.threads[tid].snap))
    ensures s'.w.current == s.w.current && (tid in s'.threads ==> Apart(Go(s'.threads[tid])))
  {
    MatchActs(s.w, s.threads[tid], s.threads[tid].point.site, out);
  }

  lemma MatchActs(w: World, t: Thread, site: Site, out: Outcome)
    requires w.current == Some(DesiredGeneration(w.localAsn, t.snap))
    ensures var (eff, k) := RunBird(w, t, BirdCompare, site, out); eff == Skip && Apart(k)
  {
    ReturnApart(t, site, true);
    ReturnApart(t, site, false);
  }

  lemma Unloaded(s: State, tid: Tid, out: Outcome, again: bool, loaded: Generation)
    requires Inv(s) && Enabled(s, Run(tid, out)) && tid != Recovery && s.threads[tid].point.In?
    requires s.threads[tid].point.sub.BirdCompare?
    ensures Loads(s, Run(tid, out), again, loaded) == loaded
  {
    assert ThreadInv(s, tid, s.threads[tid]);
  }

  // ---- recovery ----

  /** Recovery has told BIRD to reload. */
  predicate Late(t: Thread) {
    t.task.RecoverTask? &&
    (t.point.RvDropNext? || t.point.RvScan? || t.point.RvSweep? || t.point.RvListChanges? || t.point.RvPurge?
     || t.point.RvEraseNext? || t.point.RvActivateNext?)
  }

  lemma ReturnLate(t: Thread, site: Site, ok: bool)
    ensures Return(t, site, ok).Go? && Late(Return(t, site, ok).t) ==> ok && site == RvBird
  {
  }

  lemma LateBird(w: World, t: Thread, sub: Sub, site: Site, out: Outcome)
    requires t.point == In(sub, site) && BirdSub(sub)
    ensures var (eff, k) := RunBird(w, t, sub, site, out);
            k.Go? && Late(k.t) ==>
              && out.Succeed? && eff == Skip && site == RvBird
              && (sub.BirdReload?
                  || (sub.BirdCompare? && !BadIfaceName(t.snap)
                            && w.current == Some(DesiredGeneration(w.localAsn, t.snap))))
  {
    if sub.BirdReload? { LateReload(w, t, site, out); }
    else if sub.BirdCompare? { LateCompare(w, t, site, out); }
    else { NotLate(w, t, sub, site, out); }
  }

  lemma LateDone(t: Thread, site: Site)
    ensures BirdDone(t, site).Go? && Late(BirdDone(t, site).t) ==> site == RvBird
  {
    ReturnLate(t, site, true);
  }

  lemma LateReload(w: World, t: Thread, site: Site, out: Outcome)
    requires t.point.In? && t.point.sub.BirdReload?
    ensures var (eff, k) := RunBird(w, t, t.point.sub, site, out);
            k.Go? && Late(k.t) ==> out.Succeed? && eff == Skip && site == RvBird
  {
    LateDone(t, site);
  }

  lemma LateCompare(w: World, t: Thread, site: Site, out: Outcome)
    ensures var (eff, k) := RunBird(w, t, BirdCompare, site, out);
            k.Go? && Late(k.t) ==>
              && out.Succeed? && eff == Skip && site == RvBird
              && !BadIfaceName(t.snap) && w.current == Some(DesiredGeneration(w.localAsn, t.snap))
  {
    ComparedLate(t, site, out, w.current.None?, BadIfaceName(t.snap),
                 w.current == Some(DesiredGeneration(w.localAsn, t.snap)));
  }

  lemma ComparedLate(t: Thread, site: Site, out: Outcome, missing: bool, bad: bool, same: bool)
    ensures var (eff, k) := Compared(t, site, out, missing, bad, same);
            k.Go? && Late(k.t) ==> out.Succeed? && eff == Skip && site == RvBird && !bad && same
  {
    LateDone(t, site);
    ReturnLate(t, site, false);
  }

  lemma NotLate(w: World, t: Thread, sub: Sub, site: Site, out: Outcome)
    requires BirdSub(sub) && !sub.BirdReload? && !sub.BirdCompare?
    ensures var k := RunBird(w, t, sub, site, out).1; !(k.Go? && Late(k.t))
  {
    ReturnLate(t, site, false);
  }

  lemma LateOther(w: World, t: Thread, sub: Sub, site: Site, out: Outcome)
    requires t.point == In(sub, site) && !BirdSub(sub) && site != RvBird
    ensures var k := RunSub(w, t, sub, site, out).1; !(k.Go? && Late(k.t))
  {
    if NftSub(sub) { LateNft(w, t, sub, site, out); } else { LateLink(w, t, sub, site, out); }
  }

  lemma LateNft(w: World, t: Thread, sub: Sub, site: Site, out: Outcome)
    requires NftSub(sub) && site != RvBird
    ensures var k := RunNft(w, t, sub, site, out).1; !(k.Go? && Late(k.t))
  {
    ReturnLate(t, site, true);
    ReturnLate(t, site, false);
  }

  lemma LateLink(w: World, t: Thread, sub: Sub, site: Site, out: Outcome)
    requires site != RvBird
    ensures var k := RunLink(w, t, sub, site, out).1; !(k.Go? && Late(k.t))
  {
    if sub.DropLink? { ReturnLate(t, site, true); }
    ReturnLate(t, site, false);
  }

  lemma LateEntry(w: World, t: Thread, sub: Sub, site: Site, out: Outcome)
    requires t.point == In(sub, site) && (site == RvBird ==> BirdSub(sub))
    ensures var (eff, k) := RunSub(w, t, sub, site, out);
            k.Go? && Late(k.t) ==>
              && out.Succeed? && eff == Skip && site == RvBird
              && (sub.BirdReload?
                  || (sub.BirdCompare? && !BadIfaceName(t.snap)
                            && w.current == Some(DesiredGeneration(w.localAsn, t.snap))))
  {
    if BirdSub(sub) { LateBird(w, t, sub, site, out); } else { LateOther(w, t, sub, site, out); }
  }

  lemma LateStays(w: World, t: Thread, out: Outcome)
    requires t.task.RecoverTask? && !t.point.In? && RunRecover(w, t, out).1.Go? && Late(RunRecover(w, t, out).1.t)
    ensures Late(t)
  {
  }

  ghost predicate LateInStep(s: State, loaded: Generation) {
    Recovery in s.threads && Late(s.threads[Recovery]) ==> InStep(s.w, loaded)
  }

  lemma RecoveryStepLoads(s: State, out: Outcome, again: bool, loaded: Generation)
    requires Inv(s) && LateInStep(s, loaded) && Enabled(s, Run(Recovery, out))
    ensures LateInStep(Exec(s, Run(Recovery, out)), Loads(s, Run(Recovery, out), again, loaded))
  {
    RecoveryFits(s);
    if s.threads[Recovery].point.In? {
      RecoveryCallLoads(s, out, again, loaded);
    } else {
      RecoveryLoopLoads(s, out, again, loaded);
    }
  }

  lemma RecoveryCallLoads(s: State, out: Outcome, again: bool, loaded: Generation)
    requires Recovery in s.threads && Enabled(s, Run(Recovery, out)) && s.threads[Recovery].point.In?
    requires s.threads[Recovery].point.site == RvBird ==> BirdSub(s.threads[Recovery].point.sub)
    ensures LateInStep(Exec(s, Run(Recovery, out)), Loads(s, Run(Recovery, out), again, loaded))
  {
    LateCall(s, out);
  }

  lemma LateCall(s: State, out: Outcome)
    requires Recovery in s.threads && Enabled(s, Run(Recovery, out)) && s.threads[Recovery].point.In?
    requires s.threads[Recovery].point.site == RvBird ==> BirdSub(s.threads[Recovery].point.sub)
    ensures var s' := Exec(s, Run(Recovery, out));
            Recovery in s'.threads && Late(s'.threads[Recovery]) ==>
              Reloads(s, Run(Recovery, out)) && s'.w.current == s.w.current
  {
    var t := s.threads[Recovery];
    LateEntry(s.w, t, t.point.sub, t.point.site, out);
  }

  lemma RecoveryLoopLoads(s: State, out: Outcome, again: bool, loaded: Generation)
    requires Recovery in s.threads && Enabled(s, Run(Recovery, out)) && LateInStep(s, loaded)
    requires s.threads[Recovery].task.RecoverTask? && !s.threads[Recovery].point.In?
    requires !s.threads[Recovery].point.WantPeer?
    ensures LateInStep(Exec(s, Run(Recovery, out)), Loads(s, Run(Recovery, out), again, loaded))
  {
    LoopShows(s, out);
    assert !LoadStep(s, Run(Recovery, out), again);
  }

  lemma LoopShows(s: State, out: Outcome)
    requires Recovery in s.threads && Enabled(s, Run(Recovery, out)) && s.threads[Recovery].task.RecoverTask?
    requires !s.threads[Recovery].point.In? && !s.threads[Recovery].point.WantPeer?
    ensures var s' := Exec(s, Run(Recovery, out));
            && s'.w.current == s.w.current
            && (Recovery in s'.threads && Late(s'.threads[Recovery]) ==> Late(s.threads[Recovery]))
  {
    var t := s.threads[Recovery];
    RecoverActs(s.w, t, out);
    var (eff, k) := RunRecover(s.w, t, out);
    if k.Go? && Late(k.t) { LateStays(s.w, t, out); }
  }

  lemma RecoveryFits(s: State)
    requires Inv(s) && Recovery in s.threads
    ensures var t := s.threads[Recovery];
            t.task.RecoverTask? && !t.point.WantPeer? && (t.point.In? && t.point.site == RvBird ==>
                      BirdSub(t.point.sub))
  {
    assert RecoveryInv(s, s.threads[Recovery]);
  }

  lemma StepLoads(s: State, step: Step, again: bool, loaded: Generation)
    requires Inv(s) && LateInStep(s, loaded) && Enabled(s, step)
    ensures LateInStep(Exec(s, step), Loads(s, step, again, loaded))
  {
    if step.Run? {
      if step.tid == Recovery { RecoveryStepLoads(s, step.out, again, loaded); } else { OtherStepLoads(s, step); }
    }
  }

  lemma OtherStepLoads(s: State, step: Step)
    requires Inv(s) && Enabled(s, step) && step.Run? && step.tid != Recovery
    ensures Recovery !in Exec(s, step).threads
  {
    RunMoves(s, step.tid, step.out);
  }

  lemma RunLoads(states: seq<State>, steps: seq<Step>, again: seq<bool>,
            loaded: seq<Generation>, i: nat)
    requires IsDaemonRun(states, steps, again, loaded) && Leftover(states[0]) && i < |states|
    ensures LateInStep(states[i], loaded[i])
  {
    forall k | 0 <= k < i ensures LoadsOn(states, loaded, k) {
      SystemProof.RunInv(states, steps, k);
      if LateInStep(states[k], loaded[k]) { StepLoads(states[k], steps[k], again[k], loaded[k]); }
    }
    LoadedAlong(states, loaded, i);
  }

  ghost predicate LoadsOn(states: seq<State>, loaded: seq<Generation>, k: nat)
    requires |loaded| == |states| && k + 1 < |states|
  {
    LateInStep(states[k], loaded[k]) ==> LateInStep(states[k + 1], loaded[k + 1])
  }

  lemma {:induction false} LoadedAlong(states: seq<State>, loaded: seq<Generation>, i: nat)
    requires |loaded| == |states| && i < |states| && LateInStep(states[0], loaded[0])
    requires forall k :: 0 <= k < i ==> LoadsOn(states, loaded, k)
    ensures LateInStep(states[i], loaded[i])
  {
    if i > 0 {
      LoadedAlong(states, loaded, i - 1);
      assert LoadsOn(states, loaded, i - 1);
    }
  }

  /** A successful recovery leaves the daemon in step, whatever lapses there were before. */
  lemma RecoveryLoads(states: seq<State>, steps: seq<Step>, again: seq<bool>, loaded: seq<Generation>, i: nat)
    requires IsDaemonRun(states, steps, again, loaded) && Leftover(states[0]) && i < |steps|
    requires states[i].phase == Recovering && states[i + 1].phase == Serving
    ensures Tracking(states[i + 1], loaded[i + 1]) && InStep(states[i + 1].w, loaded[i + 1])
  {
    SystemProof.RunInv(states, steps, i);
    RunLoads(states, steps, again, loaded, i);
    EndsInStep(states[i], steps[i], again[i], loaded[i]);
  }

  lemma EndsInStep(s: State, step: Step, again: bool, loaded: Generation)
    requires Inv(s) && LateInStep(s, loaded) && Enabled(s, step)
    requires s.phase == Recovering && Exec(s, step).phase == Serving
    ensures Tracking(Exec(s, step), Loads(s, step, again, loaded))
    ensures InStep(Exec(s, step).w, Loads(s, step, again, loaded))
  {
    assert step.Run? && step.tid == Recovery;
    assert ThreadInv(s, Recovery, s.threads[Recovery]);
    Guarantees.ReadyLast(s.w, s.threads[Recovery], step.out);
  }

  // ---- the guarantee ----

  /** No thread is between switch and reload when no event is left. */
  lemma QuietClosed(s: State)
    requires Inv(s) && s.phase == Serving && s.w.outbox == map[]
    ensures !Open(s)
  {
    forall tid | tid in s.threads ensures !InWindow(s.threads[tid]) {
      assert ThreadInv(s, tid, s.threads[tid]);
    }
  }

  lemma RunTracks(states: seq<State>, steps: seq<Step>, again: seq<bool>, loaded: seq<Generation>, m: nat, i: nat)
    requires IsDaemonRun(states, steps, again, loaded) && Leftover(states[0]) && m <= i < |states|
    requires Tracking(states[m], loaded[m])
    requires forall k :: m <= k < i ==> !Lapses(states[k], steps[k], again[k])
    ensures Tracking(states[i], loaded[i])
  {
    forall k | m <= k < i ensures Carries(states, loaded, k) {
      TracksOn(states, steps, again, loaded, k);
    }
    Carried(states, loaded, m, i);
  }

  ghost predicate Carries(states: seq<State>, loaded: seq<Generation>, k: nat)
    requires |loaded| == |states| && k + 1 < |states|
  {
    Tracking(states[k], loaded[k]) ==> Tracking(states[k + 1], loaded[k + 1])
  }

  lemma TracksOn(states: seq<State>, steps: seq<Step>, again: seq<bool>, loaded: seq<Generation>, k: nat)
    requires IsDaemonRun(states, steps, again, loaded) && Leftover(states[0]) && k < |steps|
    requires !Lapses(states[k], steps[k], again[k])
    ensures Carries(states, loaded, k)
  {
    SystemProof.RunInv(states, steps, k);
    if Tracking(states[k], loaded[k]) { StepTracks(states[k], steps[k], again[k], loaded[k]); }
  }

  lemma {:induction false} Carried(states: seq<State>, loaded: seq<Generation>, m: nat, i: nat)
    requires |loaded| == |states| && m <= i < |states| && Tracking(states[m], loaded[m])
    requires forall k :: m <= k < i ==> Carries(states, loaded, k)
    ensures Tracking(states[i], loaded[i])
  {
    if i > m {
      Carried(states, loaded, m, i - 1);
      assert Carries(states, loaded, i - 1);
    }
  }

  /** If no lapse has happened since a recovery succeeded, then a serving process with an empty outbox has
      BIRD running exactly the configuration the table asks for. */
  lemma EmptyOutboxLoaded(states: seq<State>, steps: seq<Step>, again: seq<bool>, loaded: seq<Generation>,
                          m: nat, i: nat)
    requires IsDaemonRun(states, steps, again, loaded) && Leftover(states[0]) && m < i < |states|
    requires states[m].phase == Recovering && states[m + 1].phase == Serving
    requires forall k :: m < k < i ==> !Lapses(states[k], steps[k], again[k])
    requires states[i].phase == Serving && states[i].w.outbox == map[]
    ensures loaded[i] == DesiredGeneration(states[i].w.localAsn, states[i].w.rows)
  {
    RecoveryLoads(states, steps, again, loaded, m);
    RunTracks(states, steps, again, loaded, m + 1, i);
    SystemProof.RunInv(states, steps, i);
    QuietClosed(states[i]);
    Guarantees.EmptyOutboxConverged(states, steps, i);
  }

  // ---- exactly when ----

  /** The daemon keeps its configuration between loads. */
  lemma {:induction false} LoadedBetween(
    states: seq<State>, steps: seq<Step>, again: seq<bool>, loaded: seq<Generation>, k: nat, i: nat)
    requires IsDaemonRun(states, steps, again, loaded) && k <= i < |states|
    requires forall j :: k <= j < i ==> !LoadStep(states[j], steps[j], again[j])
    ensures loaded[i] == loaded[k]
  {
    if k < i {
      LoadedBetween(states, steps, again, loaded, k, i - 1);
      assert loaded[i] == Loads(states[i - 1], steps[i - 1], again[i - 1], loaded[i - 1]);
    }
  }

  /** A step that loads leaves the daemon in step. */
  lemma LoadStepInStep(states: seq<State>, steps: seq<Step>, again: seq<bool>, loaded: seq<Generation>, k: nat)
    requires IsDaemonRun(states, steps, again, loaded) && 0 < k < |states|
    requires LoadStep(states[k - 1], steps[k - 1], again[k - 1])
    ensures InStep(states[k].w, loaded[k])
  {
    var s, step := states[k - 1], steps[k - 1];
    assert states[k] == Exec(s, step) && loaded[k] == Loads(s, step, again[k - 1], loaded[k - 1]);
  }

  /** Where the daemon was in step last because it loaded: the last load, or the end of the recovery at step m. */
  ghost predicate LastInStep(states: seq<State>, steps: seq<Step>, again: seq<bool>, m: nat, k: nat, i: nat)
    requires |states| == |steps| + 1 && |again| == |steps|
  {
    && m < k <= i < |states|
    && (k == m + 1 || LoadStep(states[k - 1], steps[k - 1], again[k - 1]))
    && forall j :: k <= j < i ==> !LoadStep(states[j], steps[j], again[j])
  }

  /** There always is such a moment. */
  lemma {:induction false} LastInStepExists(states: seq<State>, steps: seq<Step>, again: seq<bool>, m: nat, i: nat)
    returns (k: nat)
    requires |states| == |steps| + 1 && |again| == |steps| && m < i < |states|
    ensures LastInStep(states, steps, again, m, k, i)
  {
    if i == m + 1 || LoadStep(states[i - 1], steps[i - 1], again[i - 1]) {
      k := i;
    } else {
      k := LastInStepExists(states, steps, again, m, i - 1);
    }
  }

  /** With an empty outbox, BIRD runs the configuration the table asks for if and only if that is what the link
      showed at some moment when the daemon was in step and since which nothing was loaded. */
  lemma EmptyOutboxLoadedSince(states: seq<State>, steps: seq<Step>, again: seq<bool>, loaded: seq<Generation>,
                               k: nat, i: nat)
    requires IsDaemonRun(states, steps, again, loaded) && Leftover(states[0]) && k <= i < |states|
    requires InStep(states[k].w, loaded[k])
    requires forall j :: k <= j < i ==> !LoadStep(states[j], steps[j], again[j])
    requires states[i].phase == Serving && states[i].w.outbox == map[]
    ensures var wanted := DesiredGeneration(states[i].w.localAsn, states[i].w.rows);
            states[i].w.current == Some(wanted) && (loaded[i] == wanted <==> Shows(states[k].w) == wanted)
  {
    LoadedBetween(states, steps, again, loaded, k, i);
    Guarantees.EmptyOutboxConverged(states, steps, i);
  }

  lemma InStepThen(states: seq<State>, steps: seq<Step>, again: seq<bool>, loaded: seq<Generation>,
                   m: nat, k: nat, i: nat)
    requires IsDaemonRun(states, steps, again, loaded) && Leftover(states[0]) && m < i < |states|
    requires states[m].phase == Recovering && states[m + 1].phase == Serving
    requires LastInStep(states, steps, again, m, k, i)
    ensures InStep(states[k].w, loaded[k])
  {
    if k == m + 1 {
      RecoveryLoads(states, steps, again, loaded, m);
    } else {
      LoadStepInStep(states, steps, again, loaded, k);
    }
  }

  /** So in every run, whatever lapses there are: after a recovery, a serving process with an empty outbox has
      BIRD running what the table asks for exactly if that is what the link showed at the last load. */
  lemma EmptyOutboxLoadedExactly(states: seq<State>, steps: seq<Step>, again: seq<bool>, loaded: seq<Generation>,
                                 m: nat, k: nat, i: nat)
    requires IsDaemonRun(states, steps, again, loaded) && Leftover(states[0]) && m < i < |states|
    requires states[m].phase == Recovering && states[m + 1].phase == Serving
    requires LastInStep(states, steps, again, m, k, i)
    requires states[i].phase == Serving && states[i].w.outbox == map[]
    ensures var wanted := DesiredGeneration(states[i].w.localAsn, states[i].w.rows);
            loaded[i] == wanted <==> Shows(states[k].w) == wanted
  {
    InStepThen(states, steps, again, loaded, m, k, i);
    EmptyOutboxLoadedSince(states, steps, again, loaded, k, i);
  }

  // What is loaded in the window, also when the old link could not be read.

  /** Since its switch at step j the thread is between switch and reload. */
  ghost predicate InWindowSince(states: seq<State>, steps: seq<Step>, j: nat, i: nat, tid: Tid)
    requires |states| == |steps| + 1
  {
    && j < i < |states| && steps[j] == Run(tid, Succeed)
    && tid in states[j].threads && AtSwitch(states[j].threads[tid])
    && forall k :: j < k <= i ==> tid in states[k].threads && InWindow(states[k].threads[tid])
  }

  lemma NoLoadInWindow(s: State, step: Step, again: bool, tid: Tid)
    requires Inv(s) && Enabled(s, step) && tid in s.threads && (InWindow(s.threads[tid]) || AtSwitch(s.threads[tid]))
    requires tid in Exec(s, step).threads && InWindow(Exec(s, step).threads[tid])
    ensures !LoadStep(s, step, again)
  {
    if step.Run? {
      if step.tid == tid {
        OwnWindowStep(s, tid, step.out);
      } else {
        OthersDoNotLoad(s, step, again, tid);
      }
    }
  }

  lemma OthersDoNotLoad(s: State, step: Step, again: bool, tid: Tid)
    requires Inv(s) && Enabled(s, step) && tid in s.threads && (InWindow(s.threads[tid]) || AtSwitch(s.threads[tid]))
    requires step.Run? && step.tid != tid
    ensures !LoadStep(s, step, again)
  {
    RecoverySite(s, step.tid);
    Alone(s, tid, step.tid);
  }

  /** A thread stays in the window only by a refused reload, and enters it by a switch. */
  lemma OwnWindowStep(s: State, tid: Tid, out: Outcome)
    requires Enabled(s, Run(tid, out)) && (InWindow(s.threads[tid]) || AtSwitch(s.threads[tid]))
    requires tid in Exec(s, Run(tid, out)).threads && InWindow(Exec(s, Run(tid, out)).threads[tid])
    ensures AtSwitch(s.threads[tid]) || (s.threads[tid].point.sub.BirdReload? && !out.Succeed?)
  {
    var t := s.threads[tid];
    if AtSwitch(t) { SwitchActs(s.w, t, out); }
    else if t.point.sub.BirdReload? { ReloadActs(s.w, t, out); }
    else { RestoreActs(s.w, t, out); }
  }

  lemma NoLoadSince(states: seq<State>, steps: seq<Step>, again: seq<bool>, j: nat, k: nat, tid: Tid)
    requires IsRun(states, steps) && Leftover(states[0]) && |again| == |steps|
    requires j <= k < |steps| && InWindowSince(states, steps, j, k + 1, tid)
    ensures !LoadStep(states[k], steps[k], again[k])
  {
    SystemProof.RunInv(states, steps, k);
    assert states[k + 1] == Exec(states[k], steps[k]);
    NoLoadInWindow(states[k], steps[k], again[k], tid);
  }

  lemma SwitchedInStep(states: seq<State>, steps: seq<Step>, loaded: seq<Generation>, j: nat, tid: Tid)
    requires IsRun(states, steps) && Leftover(states[0]) && |loaded| == |states| && j < |steps|
    requires tid in states[j].threads && AtSwitch(states[j].threads[tid]) && Tracking(states[j], loaded[j])
    ensures InStep(states[j].w, loaded[j])
  {
    SystemProof.RunInv(states, steps, j);
    SwitchInStep(states[j], tid, loaded[j]);
  }

  /** Between switch and reload the daemon has what the link showed before the switch. */
  lemma LoadedInWindow(states: seq<State>, steps: seq<Step>, again: seq<bool>, loaded: seq<Generation>,
                       j: nat, i: nat, tid: Tid)
    requires IsDaemonRun(states, steps, again, loaded) && Leftover(states[0])
    requires InWindowSince(states, steps, j, i, tid) && Tracking(states[j], loaded[j])
    ensures loaded[i] == Shows(states[j].w)
  {
    SwitchedInStep(states, steps, loaded, j, tid);
    forall k | j <= k < i ensures !LoadStep(states[k], steps[k], again[k]) {
      NoLoadSince(states, steps, again, j, k, tid);
    }
    LoadedBetween(states, steps, again, loaded, j, i);
  }

  /** A lapse between switch and reload, of whatever kind and whether or not the old link could be read: the daemon
      stays in step exactly if the link ends up showing what it showed before the switch. */
  lemma WindowLapseExactly(states: seq<State>, steps: seq<Step>, again: seq<bool>, loaded: seq<Generation>,
                           j: nat, i: nat, tid: Tid)
    requires IsDaemonRun(states, steps, again, loaded) && Leftover(states[0]) && i < |steps|
    requires InWindowSince(states, steps, j, i, tid) && Tracking(states[j], loaded[j])
    requires Stranded(states[i], steps[i], tid) || Unlinked(states[i], steps[i], again[i], tid)
    ensures InStep(states[i + 1].w, loaded[i + 1]) <==>
            Shows(states[j].w) == if Stranded(states[i], steps[i], tid) then Shows(states[i].w) else map[]
  {
    LoadedInWindow(states, steps, again, loaded, j, i, tid);
    assert states[i + 1] == Exec(states[i], steps[i]);
    if Stranded(states[i], steps[i], tid) { StrandedKeeps(states[i], steps[i], again[i], loaded[i], tid); }
    else { UnlinkedShowsNone(states[i], steps[i], again[i], loaded[i], tid); }
  }
}
