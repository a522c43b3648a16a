/** Every thread gets done: however the others interfere, it takes a bounded number of steps of its own. */
module Progress {
  import opened Peers
  import opened World
  import opened Machine
  import opened Invariant
  import SystemProof
  import RecoveryProof
  import Repair

  // ---- how far a thread is from its end ----

  function SubLeft(w: World, sub: Sub): nat {
    match sub
    case AddLink => 12
    case SetLink => 11
    case Configure => 10
    case AddAddress => 9
    case BirdList => 8
    case BirdWait => 7
    case BirdCompare => if w.current.None? then 6 else 5
    case BirdPeek => 4
    case BirdSwitch(_) => 3
    case BirdReload(_) => 2
    case BirdRestore(_) => 1
    case DropLink => 1
    case NftList => 3
    case NftWait => 2
    case NftRun => 1
  }

  function SiteLeft(site: Site): nat {
    match site
    case CreateApply => 80
    case CreateNft => 70
    case CompRemove => 30
    case CompNft => 0
    case UpdateApply => 40
    case UpdateRestore => 10
    case DeleteNft => 70
    case DeleteRemove => 50
    case DeleteReapply => 20
    case DeleteRenft => 10
    case ChangeApply => 100
    case ChangeRemove => 100
    case ChangeNft => 40
    case TickNft => 0
    case _ => 0
  }

  /** A scan takes at most three steps for each port. */
  function ScanLeft(k: nat): nat {
    if k > 10_000 then 100 else 100 + 3 * (10_000 - k)
  }

  function PointLeft(w: World, p: Point): nat {
    match p
    case In(sub, site) => SiteLeft(site) + SubLeft(w, sub)
    case WantPeer => 30_200
    case CheckName => 30_103
    case WantPort => 30_102
    case TakeId => 30_101
    case Probe(k) => ScanLeft(k)
    case Reserve(k) => ScanLeft(k) - 1
    case Recheck(k) => ScanLeft(k) - 2
    case CreateActivate => 61
    case CompMark => 60
    case CompErase => 20
    case ReadOld => 61
    case StoreDesired => 60
    case UpdateActivate => 31
    case CompStore => 30
    case CompActivate => 1
    case ReadVictim => 91
    case MarkDeleting => 90
    case Erase => 1
    case UndeleteQuiet => 1
    case UndeleteReapply => 40
    case ReadById => 120
    case ChangeActivate => 60
    case ChangeErase => 60
    case DropChange => 30
    case _ => 0
  }

  const TURN: nat := 30_201

  function Left(w: World, t: Thread): nat {
    PointLeft(w, t.point) + if t.task.ReconcileTask? then TURN * |t.events| else 0
  }

  predicate OrdinaryPoint(p: Point) {
    && (p.In? ==> !RecoverSite(p.site))
    && (p.Reserve? || p.Recheck? ==> p.increment < 10_000)
  }

  predicate Ordinary(t: Thread) {
    ValidTask(t.task) && !t.task.RecoverTask? && OrdinaryPoint(t.point)
  }

  // ---- a thread's own steps ----

  /** The thread has ended, or is nearer to its end with the same events to visit. */
  ghost predicate Nearer(w: World, t: Thread, r: (Eff, Cont)) {
    && (r.1.Go? || r.1.End?)
    && (r.1.Go? ==>
          && r.1.t.task == t.task && r.1.t.events == t.events && OrdinaryPoint(r.1.t.point)
          && PointLeft(Apply(w, r.0), r.1.t.point) < PointLeft(w, t.point))
  }

  lemma ReturnNearer(w: World, site: Site, ok: bool, status: Status, found: bool)
    requires !RecoverSite(site)
    ensures var d := Returns(site, ok, status, found);
            d == Stop || (d.To? && PointLeft(w, d.p) <= SiteLeft(site) && OrdinaryPoint(d.p))
  {
  }

  lemma ComparedNearer(w: World, t: Thread, site: Site, out: Outcome, bad: bool, same: bool)
    requires t.point == In(BirdCompare, site) && !RecoverSite(site) && !RemoveSite(site)
    ensures Nearer(w, t, Compared(t, site, out, w.current.None?, bad, same))
  {
    var w' := Apply(w, Compared(t, site, out, w.current.None?, bad, same).0);
    ReturnNearer(w', site, true, t.target.status, t.found);
    ReturnNearer(w', site, false, t.target.status, t.found);
  }

  lemma RemovalNearer(w: World, t: Thread, site: Site, out: Outcome, bad: bool, same: bool)
    requires t.point == In(BirdCompare, site) && RemoveSite(site)
    ensures Nearer(w, t, Compared(t, site, out, w.current.None?, bad, same))
  {
    var w' := Apply(w, Compared(t, site, out, w.current.None?, bad, same).0);
    ReturnNearer(w', site, false, t.target.status, t.found);
  }

  lemma CompareNearer(w: World, t: Thread, site: Site, out: Outcome)
    requires t.point == In(BirdCompare, site) && !RecoverSite(site)
    ensures Nearer(w, t, RunBird(w, t, BirdCompare, site, out))
  {
    var bad, same := BadIfaceName(t.snap), w.current == Some(DesiredGeneration(w.localAsn, t.snap));
    if RemoveSite(site) {
      RemovalNearer(w, t, site, out, bad, same);
    } else {
      ComparedNearer(w, t, site, out, bad, same);
    }
  }

  lemma BirdNearer(w: World, t: Thread, sub: Sub, site: Site, out: Outcome)
    requires t.point == In(sub, site) && BirdSub(sub) && !RecoverSite(site)
    requires sub.BirdList? || sub.BirdWait? || sub.BirdPeek?
    ensures Nearer(w, t, RunBird(w, t, sub, site, out))
  {
    var w' := Apply(w, RunBird(w, t, sub, site, out).0);
    ReturnNearer(w', site, true, t.target.status, t.found);
    ReturnNearer(w', site, false, t.target.status, t.found);
  }

  lemma SwitchNearer(w: World, t: Thread, sub: Sub, site: Site, out: Outcome)
    requires t.point == In(sub, site) && sub.BirdSwitch? && !RecoverSite(site)
    ensures Nearer(w, t, RunBird(w, t, sub, site, out))
  {
    var w' := Apply(w, RunBird(w, t, sub, site, out).0);
    ReturnNearer(w', site, true, t.target.status, t.found);
    ReturnNearer(w', site, false, t.target.status, t.found);
  }

  lemma ReloadNearer(w: World, t: Thread, sub: Sub, site: Site, out: Outcome)
    requires t.point == In(sub, site) && (sub.BirdReload? || sub.BirdRestore?) && !RecoverSite(site)
    ensures Nearer(w, t, RunBird(w, t, sub, site, out))
  {
    var w' := Apply(w, RunBird(w, t, sub, site, out).0);
    if sub.BirdReload? {
      ReturnNearer(w', site, true, t.target.status, t.found);
    } else {
      ReturnNearer(w', site, false, t.target.status, t.found);
    }
  }

  lemma NftNearer(w: World, t: Thread, sub: Sub, site: Site, out: Outcome)
    requires t.point == In(sub, site) && NftSub(sub) && !RecoverSite(site)
    ensures Nearer(w, t, RunNft(w, t, sub, site, out))
  {
    if sub.NftRun? {
      NftRunNearer(w, t, site, out);
    } else {
      ReturnNearer(w, site, false, t.target.status, t.found);
    }
  }

  lemma NftRunNearer(w: World, t: Thread, site: Site, out: Outcome)
    requires t.point == In(NftRun, site) && !RecoverSite(site)
    ensures Nearer(w, t, RunNft(w, t, NftRun, site, out))
  {
    var w' := Apply(w, RunNft(w, t, NftRun, site, out).0);
    ReturnNearer(w', site, true, t.target.status, t.found);
    ReturnNearer(w', site, false, t.target.status, t.found);
  }

  lemma LinkNearer(w: World, t: Thread, sub: Sub, site: Site, out: Outcome)
    requires t.point == In(sub, site) && !BirdSub(sub) && !RecoverSite(site)
    requires sub.AddLink? || sub.DropLink?
    ensures Nearer(w, t, RunLink(w, t, sub, site, out))
  {
    var w' := Apply(w, RunLink(w, t, sub, site, out).0);
    ReturnNearer(w', site, true, t.target.status, t.found);
    ReturnNearer(w', site, false, t.target.status, t.found);
  }

  lemma TuneNearer(w: World, t: Thread, sub: Sub, site: Site, out: Outcome)
    requires t.point == In(sub, site) && !RecoverSite(site) && (sub.SetLink? || sub.Configure? || sub.AddAddress?)
    ensures Nearer(w, t, RunLink(w, t, sub, site, out))
  {
    ReturnNearer(Apply(w, RunLink(w, t, sub, site, out).0), site, false, t.target.status, t.found);
  }

  lemma CallNearer(w: World, t: Thread, sub: Sub, site: Site, out: Outcome)
    requires t.point == In(sub, site) && !RecoverSite(site)
    ensures Nearer(w, t, RunSub(w, t, sub, site, out))
  {
    if sub.BirdCompare? {
      CompareNearer(w, t, site, out);
    } else if sub.BirdSwitch? {
      SwitchNearer(w, t, sub, site, out);
    } else if sub.BirdReload? || sub.BirdRestore? {
      ReloadNearer(w, t, sub, site, out);
    } else if BirdSub(sub) {
      BirdNearer(w, t, sub, site, out);
    } else if NftSub(sub) {
      NftNearer(w, t, sub, site, out);
    } else if sub.AddLink? || sub.DropLink? {
      LinkNearer(w, t, sub, site, out);
    } else {
      TuneNearer(w, t, sub, site, out);
    }
  }

  lemma CreateNearer(w: World, t: Thread, out: Outcome)
    requires w.localAsn < U32 && Ordinary(t) && t.task.CreateTask? && !t.point.In? && !t.point.WantPeer?
    ensures Nearer(w, t, RunCreate(w, t, out))
  {
    if t.point.Probe? || t.point.Reserve? || t.point.Recheck? {
      ScanNearer(w, t, out);
    } else if t.point.CheckName? || t.point.WantPort? || t.point.TakeId? {
      ReservingNearer(w, t, out);
    } else if t.point.CreateActivate? || t.point.CompMark? || t.point.CompErase? {
      WithdrawingNearer(w, t, out);
    }
  }

  lemma ScanNearer(w: World, t: Thread, out: Outcome)
    requires w.localAsn < U32 && CreateRequest(t).key.asn < U32 && OrdinaryPoint(t.point)
    requires t.point.Probe? || t.point.Reserve? || t.point.Recheck?
    ensures Nearer(w, t, RunCreate(w, t, out))
  {
    if t.point.Reserve? { ReserveNearer(w, t, out); }
  }

  lemma ReserveNearer(w: World, t: Thread, out: Outcome)
    requires w.localAsn < U32 && CreateRequest(t).key.asn < U32 && t.point.Reserve? && t.point.increment < 10_000
    ensures Nearer(w, t, RunCreate(w, t, out))
  {
  }

  lemma ReservingNearer(w: World, t: Thread, out: Outcome)
    requires w.localAsn < U32 && CreateRequest(t).key.asn < U32
    requires t.point.CheckName? || t.point.WantPort? || t.point.TakeId?
    ensures Nearer(w, t, RunCreate(w, t, out))
  {
  }

  lemma WithdrawingNearer(w: World, t: Thread, out: Outcome)
    requires w.localAsn < U32 && CreateRequest(t).key.asn < U32
    requires t.point.CreateActivate? || t.point.CompMark? || t.point.CompErase?
    ensures Nearer(w, t, RunCreate(w, t, out))
  {
  }

  lemma UpdateNearer(w: World, t: Thread, out: Outcome)
    requires w.localAsn < U32 && Ordinary(t) && t.task.UpdateTask? && !t.point.In? && !t.point.WantPeer?
    ensures Nearer(w, t, RunUpdate(w, t, out))
  {
    if t.point.StoreDesired? || t.point.CompStore? { WriteNearer(w, t, out); } else { ReadNearer(w, t, out); }
  }

  lemma WriteNearer(w: World, t: Thread, out: Outcome)
    requires w.localAsn < U32 && ValidTask(t.task) && (t.point.StoreDesired? || t.point.CompStore?)
    ensures Nearer(w, t, RunUpdate(w, t, out))
  {
  }

  lemma ReadNearer(w: World, t: Thread, out: Outcome)
    requires w.localAsn < U32 && ValidTask(t.task) && !t.point.StoreDesired? && !t.point.CompStore?
    ensures Nearer(w, t, RunUpdate(w, t, out))
  {
  }

  lemma DeleteNearer(w: World, t: Thread, out: Outcome)
    requires Ordinary(t) && t.task.DeleteTask? && !t.point.In? && !t.point.WantPeer?
    ensures Nearer(w, t, RunDelete(w, t, out))
  {
  }

  lemma ReconcileNearer(w: World, t: Thread, out: Outcome)
    requires t.task.ReconcileTask? && !t.point.In? && !t.point.WantPeer? && !t.point.NextChange?
    ensures Nearer(w, t, RunReconcile(w, t, out))
  {
    if t.point.ChangeActivate? || t.point.ChangeErase? { ChangeNearer(w, t, out); } else { RestNearer(w, t, out); }
  }

  lemma ChangeNearer(w: World, t: Thread, out: Outcome)
    requires t.point.ChangeActivate? || t.point.ChangeErase?
    ensures Nearer(w, t, RunReconcile(w, t, out))
  {
  }

  lemma RestNearer(w: World, t: Thread, out: Outcome)
    requires !t.point.In? && !t.point.WantPeer? && !t.point.NextChange?
    requires !t.point.ChangeActivate? && !t.point.ChangeErase?
    ensures Nearer(w, t, RunReconcile(w, t, out))
  {
  }

  /** A turn of the reconciler starts. */
  ghost predicate TurnStarts(t: Thread, r: (Eff, Cont)) {
    && t.task.ReconcileTask? && t.point.NextChange? && r.0 == Skip && (r.1.Go? || r.1.End?)
    && (r.1.Go? ==> r.1.t.task == t.task && r.1.t.point.WantPeer? && |r.1.t.events| < |t.events|)
  }

  lemma NextTurn(w: World, t: Thread, out: Outcome)
    requires t.task.ReconcileTask? && t.point.NextChange?
    ensures TurnStarts(t, RunReconcile(w, t, out))
  {
    if t.events != map[] {
      var e := Least(t.events);
      assert (t.events - {e}).Keys == t.events.Keys - {e};
    }
  }

  lemma TaskNearer(w: World, t: Thread, out: Outcome)
    requires w.localAsn < U32 && Ordinary(t) && !t.point.In? && !t.point.WantPeer? && !t.point.NextChange?
    ensures Nearer(w, t, Micro(w, t, out))
  {
    match t.task {
      case CreateTask(_) => CreateNearer(w, t, out);
      case UpdateTask(_) => UpdateNearer(w, t, out);
      case DeleteTask(_) => DeleteNearer(w, t, out);
      case ReconcileTask => ReconcileNearer(w, t, out);
      case TickTask =>
    }
  }

  lemma StepNearer(w: World, t: Thread, out: Outcome)
    requires w.localAsn < U32 && Ordinary(t)
    ensures Nearer(w, t, Micro(w, t, out)) || TurnStarts(t, Micro(w, t, out))
  {
    if t.point.In? {
      CallNearer(w, t, t.point.sub, t.point.site, out);
    } else if t.point.NextChange? && t.task.ReconcileTask? {
      NextTurn(w, t, out);
    } else if !t.point.WantPeer? && !t.point.NextChange? {
      TaskNearer(w, t, out);
    }
  }

  /** Each step of a request, a ticker or a reconciler brings its thread nearer to its end. */
  lemma OwnStep(w: World, t: Thread, out: Outcome)
    requires w.localAsn < U32 && Ordinary(t)
    ensures var (eff, k) := Micro(w, t, out);
            && (k.Go? || k.End?)
            && (k.Go? ==> Ordinary(k.t) && Left(Apply(w, eff), k.t) < Left(w, t))
  {
    StepNearer(w, t, out);
  }

  // ---- the steps of others ----

  /** Whoever moves `current` holds the BIRD lock. */
  lemma SwitcherHolds(w: World, t: Thread, out: Outcome)
    requires w.localAsn < U32 && ValidTask(t.task) && Micro(w, t, out).0.SetCurrent?
    ensures HoldsBird(t)
  {
  }

  lemma PointSame(w: World, w': World, p: Point)
    requires w'.current == w.current || !p.In? || !p.sub.BirdCompare?
    ensures PointLeft(w', p) == PointLeft(w, p)
  {
  }

  lemma CurrentMoves(w: World, eff: Eff)
    ensures !eff.SetCurrent? ==> Apply(w, eff).current == w.current
  {
  }

  lemma OtherRun(s: State, other: Tid, out: Outcome, tid: Tid)
    requires Mutex(s) && Enabled(s, Run(other, out)) && tid in s.threads && tid != other
    ensures PointLeft(Exec(s, Run(other, out)).w, s.threads[tid].point) <= PointLeft(s.w, s.threads[tid].point)
  {
    var eff := Micro(s.w, s.threads[other], out).0;
    assert Exec(s, Run(other, out)).w == Apply(s.w, eff);
    CurrentMoves(s.w, eff);
    if eff.SetCurrent? {
      SwitcherHolds(s.w, s.threads[other], out);
      assert Holds(s.threads[other], BirdLock) && !Holds(s.threads[tid], BirdLock);
    }
    PointSame(s.w, Apply(s.w, eff), s.threads[tid].point);
  }

  lemma QuietStep(s: State, step: Step, tid: Tid)
    requires Enabled(s, step) && !step.Run? && tid in s.threads && tid in Exec(s, step).threads && tid != Recovery
    ensures Exec(s, step).threads[tid] == s.threads[tid] && Exec(s, step).w.current == s.w.current
  {
  }

  lemma OthersThread(s: State, other: Tid, out: Outcome, tid: Tid)
    requires Enabled(s, Run(other, out)) && tid in s.threads && tid != other
    requires tid in Exec(s, Run(other, out)).threads
    ensures Exec(s, Run(other, out)).threads[tid] == s.threads[tid]
  {
  }

  /** What others do takes no thread back. */
  lemma OthersKeep(s: State, step: Step, tid: Tid)
    requires Mutex(s) && Enabled(s, step) && tid in s.threads && !(step.Run? && step.tid == tid)
    requires tid in Exec(s, step).threads && tid != Recovery
    ensures Exec(s, step).threads[tid] == s.threads[tid]
    ensures Left(Exec(s, step).w, s.threads[tid]) <= Left(s.w, s.threads[tid])
  {
    if step.Run? {
      OtherRun(s, step.tid, step.out, tid);
      OthersThread(s, step.tid, step.out, tid);
    } else {
      QuietStep(s, step, tid);
    }
  }

  // ---- whole runs ----

  ghost predicate AllOrdinary(s: State) {
    forall tid :: tid in s.threads && tid != Recovery ==> Ordinary(s.threads[tid])
  }

  lemma StaysOrdinary(s: State, step: Step)
    requires Inv(s) && AllOrdinary(s) && Enabled(s, step)
    ensures AllOrdinary(Exec(s, step))
  {
    if step.Run? { RunStaysOrdinary(s, step.tid, step.out); } else { OtherStaysOrdinary(s, step); }
  }

  lemma RunStaysOrdinary(s: State, tid: Tid, out: Outcome)
    requires AllOrdinary(s) && Enabled(s, Run(tid, out))
    ensures AllOrdinary(Exec(s, Run(tid, out)))
  {
    if tid != Recovery { OwnStep(s.w, s.threads[tid], out); }
  }

  lemma OtherStaysOrdinary(s: State, step: Step)
    requires AllOrdinary(s) && Enabled(s, step) && !step.Run?
    ensures AllOrdinary(Exec(s, step))
  {
  }

  lemma {:induction false} RunOrdinary(states: seq<State>, steps: seq<Step>, i: nat)
    requires IsRun(states, steps) && Leftover(states[0]) && i < |states|
    ensures Inv(states[i]) && AllOrdinary(states[i])
  {
    SystemProof.RunInv(states, steps, i);
    if i > 0 {
      RunOrdinary(states, steps, i - 1);
      StaysOrdinary(states[i - 1], steps[i - 1]);
    }
  }

  /** The steps of one thread among steps i to j. */
  function OwnSteps(steps: seq<Step>, tid: Tid, i: nat, j: nat): nat
    requires i <= j <= |steps|
  {
    if i == j then 0
    else OwnSteps(steps, tid, i, j - 1) + if steps[j - 1].Run? && steps[j - 1].tid == tid then 1 else 0
  }

  ghost predicate InFlight(states: seq<State>, tid: Tid, i: nat, j: nat) {
    j < |states| && forall k :: i <= k <= j ==> tid in states[k].threads
  }

  /** Step k brings the thread nearer if it is its own, and no farther otherwise. */
  ghost predicate Falls(states: seq<State>, steps: seq<Step>, tid: Tid, k: nat)
    requires k < |steps| < |states|
  {
    && tid in states[k].threads && tid in states[k + 1].threads
    && Left(states[k + 1].w, states[k + 1].threads[tid]) + (if steps[k].Run? && steps[k].tid == tid then 1 else 0)
       <= Left(states[k].w, states[k].threads[tid])
  }

  lemma Linked(states: seq<State>, steps: seq<Step>, i: nat)
    requires IsRun(states, steps) && i < |steps|
    ensures Enabled(states[i], steps[i]) && states[i + 1] == Exec(states[i], steps[i])
  {
  }

  lemma StepFalls(states: seq<State>, steps: seq<Step>, tid: Tid, i: nat)
    requires IsRun(states, steps) && Leftover(states[0]) && i < |steps| && tid != Recovery
    requires tid in states[i].threads && tid in states[i + 1].threads
    ensures Falls(states, steps, tid, i)
  {
    RunOrdinary(states, steps, i);
    Linked(states, steps, i);
    OneStep(states[i], steps[i], states[i + 1], tid);
  }

  lemma {:induction false} StepsFall(states: seq<State>, steps: seq<Step>, i: nat, j: nat, tid: Tid)
    requires i <= j < |states| == |steps| + 1 && tid in states[i].threads
    requires forall k :: i <= k < j ==> Falls(states, steps, tid, k)
    ensures tid in states[j].threads
    ensures OwnSteps(steps, tid, i, j) + Left(states[j].w, states[j].threads[tid])
         <= Left(states[i].w, states[i].threads[tid])
    decreases j
  {
    if i < j {
      StepsFall(states, steps, i, j - 1, tid);
      assert Falls(states, steps, tid, j - 1);
    }
  }

  lemma FlightFalls(states: seq<State>, steps: seq<Step>, i: nat, j: nat, tid: Tid, k: nat)
    requires IsRun(states, steps) && Leftover(states[0]) && i <= k < j && InFlight(states, tid, i, j) && tid != Recovery
    ensures Falls(states, steps, tid, k)
  {
    assert tid in states[k].threads && tid in states[k + 1].threads;
    StepFalls(states, steps, tid, k);
  }

  lemma StepsLeft(states: seq<State>, steps: seq<Step>, i: nat, j: nat, tid: Tid)
    requires IsRun(states, steps) && Leftover(states[0]) && i <= j && InFlight(states, tid, i, j) && tid != Recovery
    ensures OwnSteps(steps, tid, i, j) + Left(states[j].w, states[j].threads[tid])
         <= Left(states[i].w, states[i].threads[tid])
  {
    forall k | i <= k < j ensures Falls(states, steps, tid, k) {
      FlightFalls(states, steps, i, j, tid, k);
    }
    StepsFall(states, steps, i, j, tid);
  }

  lemma OneStep(s: State, step: Step, s': State, tid: Tid)
    requires Inv(s) && AllOrdinary(s) && Enabled(s, step) && s' == Exec(s, step) && tid != Recovery
    requires tid in s.threads && tid in s'.threads
    ensures Left(s'.w, s'.threads[tid]) + (if step.Run? && step.tid == tid then 1 else 0) <= Left(s.w, s.threads[tid])
  {
    if step.Run? && step.tid == tid {
      OwnStep(s.w, s.threads[tid], step.out);
    } else {
      OthersKeep(s, step, tid);
    }
  }

  lemma StartsFar(w: World, p: Point)
    ensures PointLeft(w, p) <= 30_200
  {
  }

  /** In every run, whatever fails and however threads are interleaved, a request takes at most 30,200 steps of its
      own. With NoDeadlock, every request ends. */
  lemma RequestsEnd(states: seq<State>, steps: seq<Step>, i: nat, j: nat, n: nat)
    requires IsRun(states, steps) && Leftover(states[0]) && i <= j && InFlight(states, Api(n), i, j)
    ensures OwnSteps(steps, Api(n), i, j) <= 30_200
  {
    StepsLeft(states, steps, i, j, Api(n));
    SystemProof.RunInv(states, steps, i);
    StartsFar(states[i].w, states[i].threads[Api(n)].point);
  }

  /** A pass of the reconciler is over after as many steps for each event it listed, and once more. */
  lemma PassesEnd(states: seq<State>, steps: seq<Step>, i: nat, j: nat)
    requires IsRun(states, steps) && Leftover(states[0]) && i < j && InFlight(states, Reconciler, i + 1, j)
    requires steps[i] == StartReconcile
    ensures OwnSteps(steps, Reconciler, i + 1, j) <= TURN * (|states[i].w.outbox| + 1)
  {
    StepsLeft(states, steps, i + 1, j, Reconciler);
    StartsFar(states[i + 1].w, states[i + 1].threads[Reconciler].point);
  }

  // ---- recovery ----

  /** The part of `recover` the thread is in, counted from the end. */
  function Stage(p: Point): nat {
    match p
    case RvList => 10
    case RvApplyNext => 9
    case In(_, site) => if site == RvApply then 9 else if site == RvNft then 8 else 7
    case RvDropNext => 6
    case RvScan => 5
    case RvSweep => 4
    case RvListChanges => 3
    case RvPurge => 2
    case RvEraseNext => 1
    case _ => 0
  }

  /** What the loop of that part still has to visit. */
  function LoopLeft(t: Thread): nat {
    if t.point.RvSweep? then |t.names| else if t.point.RvPurge? then |t.events| else |t.ids|
  }

  function CallLeft(w: World, p: Point): nat {
    if p.In? then SubLeft(w, p.sub) else 0
  }

  /** What holds besides Invariant.Progress as long as recovery is the only one to act. */
  predicate Undisturbed(w: World, t: Thread) {
    && (Stage(t.point) > 1 && !t.point.RvList? ==> w.rows == t.snap)
    && (t.point.RvEraseNext? ==> t.ids <= w.rows.Keys)
    && (t.point.RvActivateNext? ==> t.ids <= w.rows.Keys)
    && (t.point.In? && t.point.sub.SetLink? ==> t.target.iface in w.ifaces)
    && (t.point.In? ==> !t.point.sub.BirdRestore?)
  }

  /** Recovery has come nearer to its end. */
  ghost predicate Advances(w: World, t: Thread, w': World, t': Thread) {
    || Stage(t'.point) < Stage(t.point)
    || (Stage(t'.point) == Stage(t.point)
        && (LoopLeft(t') < LoopLeft(t)
            || (LoopLeft(t') == LoopLeft(t) && CallLeft(w', t'.point) < CallLeft(w, t.point))))
  }

  ghost predicate Moves(w: World, t: Thread, r: (Eff, Cont)) {
    var w' := Apply(w, r.0);
    (r.1.Go? && Undisturbed(w', r.1.t) && Advances(w, t, w', r.1.t)) || r.1.Ready?
  }

  lemma LinkMoves(w: World, t: Thread, sub: Sub)
    requires t.point == In(sub, RvApply) && Undisturbed(w, t) && Repair.Partly(w, t, sub)
    requires t.target.iface == t.target.id && !BirdSub(sub) && !NftSub(sub) && !sub.DropLink?
    ensures Moves(w, t, RunLink(w, t, sub, RvApply, Succeed))
  {
  }

  lemma NftMoves(w: World, t: Thread, sub: Sub)
    requires t.point == In(sub, RvNft) && Undisturbed(w, t) && NftSub(sub) && !sub.NftList?
    ensures Moves(w, t, RunNft(w, t, sub, RvNft, Succeed))
  {
  }

  lemma BirdMoves(w: World, t: Thread, sub: Sub)
    requires t.point == In(sub, RvBird) && Undisturbed(w, t) && BirdSub(sub) && !sub.BirdList? && !BadIfaceName(t.snap)
    ensures Moves(w, t, RunBird(w, t, sub, RvBird, Succeed))
  {
    if sub.BirdCompare? { CompareMoves(w, t); } else { SwitchMoves(w, t, sub); }
  }

  lemma CompareMoves(w: World, t: Thread)
    requires t.point == In(BirdCompare, RvBird) && Undisturbed(w, t) && !BadIfaceName(t.snap)
    ensures Moves(w, t, RunBird(w, t, BirdCompare, RvBird, Succeed))
  {
    ComparedMoves(w, t, w.current == Some(DesiredGeneration(w.localAsn, t.snap)));
  }

  lemma ComparedMoves(w: World, t: Thread, same: bool)
    requires t.point == In(BirdCompare, RvBird) && Undisturbed(w, t)
    ensures Moves(w, t, Compared(t, RvBird, Succeed, w.current.None?, false, same))
  {
  }

  lemma SwitchMoves(w: World, t: Thread, sub: Sub)
    requires t.point == In(sub, RvBird) && Undisturbed(w, t) && BirdSub(sub) && !sub.BirdList? && !sub.BirdCompare?
    ensures Moves(w, t, RunBird(w, t, sub, RvBird, Succeed))
  {
  }

  lemma CallMoves(w: World, t: Thread)
    requires SnapInv(w, t.snap) && Invariant.Progress(w, t) && Undisturbed(w, t) && t.task.RecoverTask?
    requires t.point.In? && Repair.Advanced(w, t)
    ensures Moves(w, t, RunSub(w, t, t.point.sub, t.point.site, Succeed))
  {
    match t.point.site {
      case RvApply => LinkMoves(w, t, t.point.sub);
      case RvNft => NftMoves(w, t, t.point.sub);
      case RvBird => BirdMoves(w, t, t.point.sub);
    }
  }

  lemma Smaller<T>(a: set<T>, x: T)
    requires x in a
    ensures |a - {x}| < |a|
  {
  }

  lemma ListMoves(w: World, t: Thread)
    requires t.point.RvList? || t.point.RvScan? || t.point.RvListChanges?
    requires Undisturbed(w, t)
    ensures Moves(w, t, RunRecover(w, t, Succeed))
  {
  }

  lemma PickMoves(w: World, t: Thread)
    requires t.point.RvApplyNext? && Undisturbed(w, t) && t.ids <= WantedIds(t.snap)
    ensures Moves(w, t, RunRecover(w, t, Succeed))
  {
    if t.ids != {} {
      var n := Pick(t.ids);
      Smaller(t.ids, n);
      assert RunRecover(w, t, Succeed)
          == (Skip, Go(t.(point := In(AddLink, RvApply), target := t.snap[n], ids := t.ids - {n})));
    }
  }

  lemma DropMoves(w: World, t: Thread)
    requires t.point.RvDropNext? && Undisturbed(w, t) && t.ids <= UnwantedIds(t.snap)
    ensures Moves(w, t, RunRecover(w, t, Succeed))
  {
    if t.ids != {} { Smaller(t.ids, Pick(t.ids)); }
  }

  lemma SweepMoves(w: World, t: Thread)
    requires t.point.RvSweep? && Undisturbed(w, t)
    ensures Moves(w, t, RunRecover(w, t, Succeed))
  {
    if t.names != {} { Smaller(t.names, Pick(t.names)); }
  }

  lemma PurgeMoves(w: World, t: Thread)
    requires t.point.RvPurge? && Undisturbed(w, t)
    ensures Moves(w, t, RunRecover(w, t, Succeed))
  {
    if t.events != map[] {
      var e := Least(t.events);
      assert (t.events - {e}).Keys == t.events.Keys - {e};
    }
  }

  lemma EraseMoves(w: World, t: Thread)
    requires t.point.RvEraseNext? && Undisturbed(w, t) && Repair.Between(t.snap, w.rows)
    ensures Moves(w, t, RunRecover(w, t, Succeed))
  {
    if t.ids == {} {
      forall n | n in WantedIds(t.snap) ensures n in w.rows {
        assert Repair.RowBetween(t.snap, w.rows, n);
      }
    } else {
      Smaller(t.ids, Pick(t.ids));
    }
  }

  lemma ActivateMoves(w: World, t: Thread)
    requires t.point.RvActivateNext? && Undisturbed(w, t) && Ident(w)
    ensures Moves(w, t, RunRecover(w, t, Succeed))
  {
    if t.ids != {} { Smaller(t.ids, Pick(t.ids)); }
  }

  lemma LoopMoves(w: World, t: Thread)
    requires Ident(w) && !t.point.In? && Undisturbed(w, t)
    requires t.point.RvList? || (Invariant.Progress(w, t) && Repair.Between(t.snap, w.rows))
    ensures Moves(w, t, RunRecover(w, t, Succeed))
  {
    match t.point {
      case RvApplyNext => PickMoves(w, t);
      case RvDropNext => DropMoves(w, t);
      case RvSweep => SweepMoves(w, t);
      case RvPurge => PurgeMoves(w, t);
      case RvEraseNext => EraseMoves(w, t);
      case RvActivateNext => ActivateMoves(w, t);
      case _ => ListMoves(w, t);
    }
  }

  lemma RecoveryMoves(s: State, rows: map<nat, Peer>)
    requires Repair.Repairing(s, rows) && s.phase == Recovering && Undisturbed(s.w, s.threads[Recovery])
    ensures Enabled(s, Run(Recovery, Succeed))
    ensures Moves(s.w, s.threads[Recovery], Micro(s.w, s.threads[Recovery], Succeed))
  {
    var t := s.threads[Recovery];
    assert RecoveryInv(s, t);
    if t.point.In? { CallMoves(s.w, t); } else { LoopMoves(s.w, t); }
  }

  /** The service serves after this run, in which only recovery acts and nothing fails. */
  ghost predicate CompleteRun(states: seq<State>, steps: seq<Step>, s: State, rows: map<nat, Peer>) {
    && IsRun(states, steps) && states[0] == s && (forall i :: 0 <= i < |steps| ==> steps[i] == Run(Recovery, Succeed))
    && states[|steps|].phase == Serving && Repair.Repaired(states[|steps|].w, rows)
  }

  lemma Prepend(s: State, step: Step, states: seq<State>, steps: seq<Step>)
    requires IsRun(states, steps) && Enabled(s, step) && states[0] == Exec(s, step)
    ensures IsRun([s] + states, [step] + steps)
  {
    var all, allSteps := [s] + states, [step] + steps;
    forall i | 0 <= i < |allSteps| ensures Enabled(all[i], allSteps[i]) && all[i + 1] == Exec(all[i], allSteps[i]) {
      if i > 0 {
        assert all[i] == states[i - 1] && allSteps[i] == steps[i - 1] && all[i + 1] == states[i - 1 + 1];
      }
    }
  }

  lemma RecoverySteps(s: State, s': State)
    requires s.phase == Recovering && Enabled(s, Run(Recovery, Succeed)) && s' == Exec(s, Run(Recovery, Succeed))
    requires Moves(s.w, s.threads[Recovery], Micro(s.w, s.threads[Recovery], Succeed))
    ensures s'.phase == Serving
         || (s'.phase == Recovering && Recovery in s'.threads && Undisturbed(s'.w, s'.threads[Recovery])
             && Advances(s.w, s.threads[Recovery], s'.w, s'.threads[Recovery]))
  {
  }

  lemma RecoveryGoesOn(s: State, rows: map<nat, Peer>) returns (s': State)
    requires Repair.Repairing(s, rows) && s.phase == Recovering && Undisturbed(s.w, s.threads[Recovery])
    ensures Enabled(s, Run(Recovery, Succeed)) && s' == Exec(s, Run(Recovery, Succeed))
    ensures s'.phase == Serving ==> Repair.Repaired(s'.w, rows)
    ensures s'.phase != Serving ==>
              && Repair.Repairing(s', rows) && s'.phase == Recovering && Undisturbed(s'.w, s'.threads[Recovery])
              && Advances(s.w, s.threads[Recovery], s'.w, s'.threads[Recovery])
  {
    RecoveryMoves(s, rows);
    Repair.AttemptKept(s, rows, Run(Recovery, Succeed));
    s' := Exec(s, Run(Recovery, Succeed));
    RecoverySteps(s, s');
  }

  lemma CompleteOn(s: State, s': State, rest: seq<State>, restSteps: seq<Step>, rows: map<nat, Peer>)
    requires Enabled(s, Run(Recovery, Succeed)) && s' == Exec(s, Run(Recovery, Succeed))
    requires CompleteRun(rest, restSteps, s', rows)
    ensures CompleteRun([s] + rest, [Run(Recovery, Succeed)] + restSteps, s, rows)
  {
    Prepend(s, Run(Recovery, Succeed), rest, restSteps);
  }

  lemma {:induction false} Completes(s: State, rows: map<nat, Peer>) returns (states: seq<State>, steps: seq<Step>)
    requires Repair.Repairing(s, rows) && s.phase == Recovering && Undisturbed(s.w, s.threads[Recovery])
    ensures CompleteRun(states, steps, s, rows)
    decreases Stage(s.threads[Recovery].point), LoopLeft(s.threads[Recovery]), CallLeft(s.w, s.threads[Recovery].point)
  {
    var s' := RecoveryGoesOn(s, rows);
    var rest, restSteps := [s'], [];
    if s'.phase != Serving {
      rest, restSteps := Completes(s', rows);
    }
    CompleteOn(s, s', rest, restSteps, rows);
    states, steps := [s] + rest, [Run(Recovery, Succeed)] + restSteps;
  }

  /** From whatever earlier runs left behind, a recovery that is not disturbed and in which no call fails gets to the
      end, where everything is repaired. */
  lemma RecoveryCompletes(s: State) returns (states: seq<State>, steps: seq<Step>)
    requires Leftover(s)
    ensures IsRun(states, steps) && states[0] == s && steps != [] && steps[0] == Boot
    ensures forall i :: 1 <= i < |steps| ==> steps[i] == Run(Recovery, Succeed)
    ensures states[|steps|].phase == Serving && Repair.PlainlyRepaired(states[|steps|].w, s.w.rows)
  {
    SystemProof.LeftoverInv(s);
    SystemProof.BootKept(s);
    var s' := Exec(s, Boot);
    assert Repair.Repairing(s', s.w.rows) by {
      forall n ensures Repair.RowBetween(s.w.rows, s.w.rows, n) {}
    }
    var rest, restSteps := Completes(s', s.w.rows);
    Prepend(s, Boot, rest, restSteps);
    Repair.RepairedPlainly(rest[|restSteps|].w, s.w.rows);
    states, steps := [s] + rest, [Boot] + restSteps;
  }
}
