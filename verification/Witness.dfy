/** Disabled rows that do not stay disabled: runs that show it. */
module Witness {
  import opened Peers
  import opened World
  import opened Machine
  import opened Invariant
  import opened Reactivation
  import ApiOnly
  import Daemon

  /** A run leads from one state to the other while BIRD has no file loaded. `alone` means that the service is
      the only writer. */
  ghost predicate Leads(s: State, s': State, alone: bool) {
    exists states, steps :: Links(states, steps, s, s', alone)
  }

  ghost predicate Links(states: seq<State>, steps: seq<Step>, s: State, s': State, alone: bool) {
    && |states| == |steps| + 1 && states[0] == s && states[|steps|] == s'
    && (alone ==> ServiceOnly(steps, |steps|))
    && forall i :: 0 <= i < |steps| ==> LinkedAt(states, steps, i)
  }

  ghost predicate LinkedAt(states: seq<State>, steps: seq<Step>, i: nat)
    requires |states| == |steps| + 1 && i < |steps|
  {
    Linked(states[i], steps[i], states[i + 1])
  }

  ghost predicate Linked(s: State, step: Step, s': State) {
    Enabled(s, step) && s' == Exec(s, step) && Daemon.Loads(s, step, false, map[]) == map[]
  }

  lemma LinksRun(states: seq<State>, steps: seq<Step>, s: State, s': State, alone: bool)
    requires Links(states, steps, s, s', alone)
    ensures IsRun(states, steps)
    ensures Daemon.IsDaemonRun(states, steps, seq(|steps|, _ => false), seq(|states|, _ => map[]))
  {
    forall i | 0 <= i < |steps| ensures Enabled(states[i], steps[i]) && states[i + 1] == Exec(states[i], steps[i]) {
      assert LinkedAt(states, steps, i);
    }
    var again, loaded := seq(|steps|, _ => false), seq<Generation>(|states|, _ => map[]);
    forall i | 0 <= i < |steps| ensures loaded[i + 1] == Daemon.Loads(states[i], steps[i], again[i], loaded[i]) {
      assert LinkedAt(states, steps, i);
    }
  }

  /** A run of the service alone. */
  ghost predicate Reaches(s: State, s': State) {
    Leads(s, s', true)
  }

  lemma LeadStep(s: State, step: Step, s': State, alone: bool)
    requires Enabled(s, step) && Exec(s, step) == s' && (alone ==> ApiOnly.ServiceStep(step))
    requires Daemon.Shows(s'.w) == map[] || !Daemon.LoadStep(s, step, false)
    ensures Leads(s, s', alone)
  {
    assert LinkedAt([s, s'], [step], 0);
    assert Links([s, s'], [step], s, s', alone);
  }

  lemma ReachStep(s: State, step: Step, s': State)
    requires Enabled(s, step) && Exec(s, step) == s' && ApiOnly.ServiceStep(step) && Daemon.Shows(s'.w) == map[]
    ensures Reaches(s, s')
  {
    LeadStep(s, step, s', true);
  }

  lemma LeadOn(a: State, b: State, c: State, alone: bool)
    requires Leads(a, b, alone) && Leads(b, c, alone)
    ensures Leads(a, c, alone)
  {
    var states, steps :| Links(states, steps, a, b, alone);
    var more, moreSteps :| Links(more, moreSteps, b, c, alone);
    LinkOn(states, steps, more, moreSteps, a, b, c, alone);
  }

  lemma LinkOn(states: seq<State>, steps: seq<Step>, more: seq<State>, moreSteps: seq<Step>,
               a: State, b: State, c: State, alone: bool)
    requires Links(states, steps, a, b, alone) && Links(more, moreSteps, b, c, alone)
    ensures Links(states + more[1..], steps + moreSteps, a, c, alone)
  {
    var all, allSteps := states + more[1..], steps + moreSteps;
    forall i | 0 <= i < |allSteps| ensures LinkedAt(all, allSteps, i) {
      if i < |steps| {
        assert LinkedAt(states, steps, i);
      } else {
        assert LinkedAt(more, moreSteps, i - |steps|);
        assert all[i] == more[i - |steps|] && all[i + 1] == more[i + 1 - |steps|];
      }
    }
  }

  lemma ReachOn(a: State, b: State, c: State)
    requires Reaches(a, b) && Reaches(b, c)
    ensures Reaches(a, c)
  {
    LeadOn(a, b, c, true);
  }

  // ---- a refused deletion ----

  const KEY := Key(4242420001, "fra1")
  const ROW := Peer(1, "fra1", 1, 4242420001, "k", None, [0xfe80, 0, 0, 0, 0, 0, 0, 1], [0xfe80, 0, 0, 0, 0, 0, 0, 2],
                    Disabled, 20_001, 1420)

  /** A table with one disabled row, and nothing else. */
  const REST: World := World(4242420000, map[1 := ROW], map[], 0, 2, map[1 := KEY], {1}, map[], {}, Some(map[]), {})

  const STOPPED := State(REST, Down, map[], true)
  const SERVING := State(REST, Serving, map[], true)

  function Starting(point: Point, ids: set<nat>): State {
    State(REST, Recovering, map[Recovery := NewThread(RecoverTask, point).(snap := REST.rows, ids := ids)], true)
  }

  lemma NothingWanted()
    ensures WantedIds(REST.rows) == {} && UnwantedIds(REST.rows) == {1} && DeletingIds(REST.rows) == {}
    ensures DesiredGeneration(REST.localAsn, REST.rows) == map[] && DesiredPorts(REST.rows) == {}
    ensures WantedIfaces(REST.rows) == {} && ManagedIfaces(REST) == {} && !BadIfaceName(REST.rows)
  {
  }

  const BOOTED := State(REST, Recovering, map[Recovery := NewThread(RecoverTask, RvList)], true)

  lemma Begins()
    ensures Came(RvApplyNext, {})
  {
    NothingWanted();
    ReachStep(STOPPED, Boot, BOOTED);
    ReachStep(BOOTED, Run(Recovery, Succeed), Starting(RvApplyNext, {}));
    ReachOn(STOPPED, BOOTED, Starting(RvApplyNext, {}));
  }

  ghost predicate Came(point: Point, ids: set<nat>) {
    Reaches(STOPPED, Starting(point, ids))
  }

  lemma Goes(p: Point, ids: set<nat>, eff: Eff, p': Point, ids': set<nat>)
    requires Came(p, ids) && Apply(REST, eff) == REST
    requires Micro(REST, Starting(p, ids).threads[Recovery], Succeed) == (eff, Go(Starting(p', ids').threads[Recovery]))
    ensures Came(p', ids')
  {
    ReachStep(Starting(p, ids), Run(Recovery, Succeed), Starting(p', ids'));
    ReachOn(STOPPED, Starting(p, ids), Starting(p', ids'));
  }

  lemma ShowsPorts()
    requires Came(RvApplyNext, {})
    ensures Came(In(NftWait, RvNft), {})
  {
    Goes(RvApplyNext, {}, Skip, In(NftWait, RvNft), {});
  }

  lemma NftLocked()
    requires Came(In(NftWait, RvNft), {})
    ensures Came(In(NftRun, RvNft), {})
  {
    Goes(In(NftWait, RvNft), {}, Skip, In(NftRun, RvNft), {});
  }

  lemma PortsShown()
    requires Came(In(NftRun, RvNft), {})
    ensures Came(In(BirdCompare, RvBird), {})
  {
    NothingWanted();
    Goes(In(NftRun, RvNft), {}, SetPorts({}), In(BirdWait, RvBird), {});
    Goes(In(BirdWait, RvBird), {}, Skip, In(BirdCompare, RvBird), {});
  }

  lemma BirdShown()
    requires Came(In(BirdCompare, RvBird), {})
    ensures Came(RvDropNext, {1})
  {
    NothingWanted();
    Goes(In(BirdCompare, RvBird), {}, Skip, RvDropNext, {1});
  }

  lemma Drops()
    requires Came(RvDropNext, {1})
    ensures Came(RvDropNext, {})
  {
    assert REST.ifaces - {1} == REST.ifaces;
    assert Pick({1}) == 1 && {1} - {1} == {};
    Goes(RvDropNext, {1}, DropIface(1), RvDropNext, {});
  }

  lemma Scans()
    requires Came(RvDropNext, {})
    ensures Came(RvScan, {})
  {
    Goes(RvDropNext, {}, Skip, RvScan, {});
  }

  lemma Sweeps()
    requires Came(RvScan, {})
    ensures Came(RvListChanges, {})
  {
    NothingWanted();
    assert ManagedIfaces(REST) - WantedIfaces(REST.rows) == {};
    Goes(RvScan, {}, Skip, RvSweep, {});
    Goes(RvSweep, {}, Skip, RvListChanges, {});
  }

  lemma NothingPurged()
    requires Came(RvListChanges, {})
    ensures Came(RvPurge, {})
  {
    Goes(RvListChanges, {}, Skip, RvPurge, {});
  }

  lemma FinishesRows()
    requires Came(RvPurge, {})
    ensures Came(RvActivateNext, {})
  {
    NothingWanted();
    Goes(RvPurge, {}, Skip, RvEraseNext, {});
    Goes(RvEraseNext, {}, Skip, RvActivateNext, {});
  }

  lemma Starts()
    ensures Reaches(STOPPED, SERVING)
  {
    Begins();
    ShowsPorts();
    NftLocked();
    PortsShown();
    BirdShown();
    Drops();
    Scans();
    Sweeps();
    NothingPurged();
    FinishesRows();
    Serves();
  }

  lemma Serves()
    requires Came(RvActivateNext, {})
    ensures Reaches(STOPPED, SERVING)
  {
    ReachStep(Starting(RvActivateNext, {}), Run(Recovery, Succeed), SERVING);
    ReachOn(STOPPED, Starting(RvActivateNext, {}), SERVING);
  }

  // The request: it marks the row, its nftables call fails, and it sets the row active.

  function Asked(point: Point, target: Peer): State {
    State(REST, Serving, map[Api(0) := NewThread(DeleteTask(KEY), point).(target := target)], true)
  }

  const MARKED: World :=
    REST.(rows := map[1 := ROW.(status := Deleting)], outbox := map[0 := Event(Update, ROW.(status := Deleting))],
      nextEvent := 1)

  function Marked(point: Point): State {
    State(MARKED, Serving, map[Api(0) := NewThread(DeleteTask(KEY), point).(target := ROW)], true)
  }

  const ACTIVE: World :=
    MARKED.(rows := map[1 := ROW.(status := Active)],
      outbox := MARKED.outbox[1 := Event(Update, ROW.(status := Active))], nextEvent := 2)

  const REFUSED := State(ACTIVE, Serving, map[], true)

  /** One action of the only thread. */
  lemma Requests(w: World, t: Thread, out: Outcome, eff: Eff, t': Thread, w': World)
    requires w.localAsn < U32 && ValidTask(t.task) && Micro(w, t, out) == (eff, Go(t')) && Apply(w, eff) == w'
    requires Daemon.Shows(w') == map[]
    ensures Reaches(State(w, Serving, map[Api(0) := t], true), State(w', Serving, map[Api(0) := t'], true))
  {
    var s, s' := State(w, Serving, map[Api(0) := t], true), State(w', Serving, map[Api(0) := t'], true);
    ReachStep(s, Run(Api(0), out), s');
  }

  function Request(point: Point, target: Peer, mark: nat): Thread {
    NewThread(DeleteTask(KEY), point).(target := target, mark := mark)
  }

  lemma Asks()
    ensures Reaches(SERVING, Asked(MarkDeleting, ROW))
  {
    ReachStep(SERVING, Submit(0, DeleteTask(KEY)), Asked(WantPeer, NOBODY));
    Requests(REST, Request(WantPeer, NOBODY, 0), Succeed, Skip, Request(ReadVictim, NOBODY, 0), REST);
    assert FindByKey(REST, KEY) == Some(ROW) by { assert NameTaken(REST, KEY) by { assert 1 in REST.rows; } }
    Requests(REST, Request(ReadVictim, NOBODY, 0), Succeed, Skip, Request(MarkDeleting, ROW, 0), REST);
    ReachOn(SERVING, Asked(WantPeer, NOBODY), Asked(ReadVictim, NOBODY));
    ReachOn(SERVING, Asked(ReadVictim, NOBODY), Asked(MarkDeleting, ROW));
  }

  lemma Marks()
    ensures Reaches(Asked(MarkDeleting, ROW), Marked(In(NftList, DeleteNft)))
  {
    assert REST.used + {1} == REST.used;
    Requests(REST, Request(MarkDeleting, ROW, 0), Succeed, SetRow(Update, ROW.(status := Deleting)),
             Request(In(NftList, DeleteNft), ROW, 0), MARKED);
  }

  lemma Fails()
    ensures Reaches(Marked(In(NftList, DeleteNft)), Marked(UndeleteQuiet))
  {
    Requests(MARKED, Request(In(NftList, DeleteNft), ROW, 0), Fail, Skip, Request(UndeleteQuiet, ROW, 0), MARKED);
  }

  lemma TakesBack()
    ensures Reaches(Marked(UndeleteQuiet), REFUSED)
  {
    assert MARKED.used + {1} == MARKED.used;
    ReachStep(Marked(UndeleteQuiet), Run(Api(0), Succeed), REFUSED);
  }

  /** From a stopped service whose only row is disabled, one deletion request with one failed call leads to
      an active row. No other writer is involved. */
  lemma RefusedDeletionActivates()
    ensures Leftover(STOPPED) && IsDisabled(STOPPED.w, 1)
    ensures Reaches(STOPPED, REFUSED) && REFUSED.phase == Serving && IsActive(REFUSED.w, 1)
  {
    Starts();
    Deletes();
    ReachOn(STOPPED, SERVING, REFUSED);
  }

  lemma Deletes()
    ensures Reaches(SERVING, REFUSED)
  {
    Asks();
    Marks();
    ReachOn(SERVING, Asked(MarkDeleting, ROW), Marked(In(NftList, DeleteNft)));
    Fails();
    ReachOn(SERVING, Marked(In(NftList, DeleteNft)), Marked(UndeleteQuiet));
    TakesBack();
    ReachOn(SERVING, Marked(UndeleteQuiet), REFUSED);
  }

  // ---- a lost write ----

  lemma MayDisable(w: World, n: nat)
    requires Ident(w) && Unique(w) && n in w.rows
    ensures !PortTaken(w, w.rows[n].port, n)
  {
  }

  /** Another writer disables a row between the reconciler's reading it and the status write that ends its
      work: the row is active again. */
  lemma ReconcilerOverwrites(s: State, n: nat)
    requires Inv(s) && Reconciler in s.threads && s.threads[Reconciler].point.ChangeActivate?
    requires n in s.w.rows && s.threads[Reconciler].target.id == n
    ensures var disable := OutsideUpdate(s.w.rows[n].(status := Disabled));
            && Enabled(s, disable) && IsDisabled(Exec(s, disable).w, n)
            && Enabled(Exec(s, disable), Run(Reconciler, Succeed))
            && IsActive(Exec(Exec(s, disable), Run(Reconciler, Succeed)).w, n)
  {
    MayDisable(s.w, n);
    Overwrites(s, Reconciler, n);
  }

  /** The same for the last loop of recovery. */
  lemma RecoveryOverwrites(s: State, n: nat)
    requires Inv(s) && Recovery in s.threads && s.threads[Recovery].point.RvActivateNext?
    requires n in s.w.rows && s.threads[Recovery].ids != {} && Pick(s.threads[Recovery].ids) == n
    ensures var disable := OutsideUpdate(s.w.rows[n].(status := Disabled));
            && Enabled(s, disable) && IsDisabled(Exec(s, disable).w, n)
            && Enabled(Exec(s, disable), Run(Recovery, Succeed))
            && IsActive(Exec(Exec(s, disable), Run(Recovery, Succeed)).w, n)
  {
    MayDisable(s.w, n);
    Overwrites(s, Recovery, n);
  }

  lemma Overwrites(s: State, tid: Tid, n: nat)
    requires Inv(s) && (tid == Reconciler || tid == Recovery) && tid in s.threads && n in s.w.rows
    requires Activating(s.threads[tid], n) && !PortTaken(s.w, s.w.rows[n].port, n)
    ensures var disable := OutsideUpdate(s.w.rows[n].(status := Disabled));
            && Enabled(s, disable) && IsDisabled(Exec(s, disable).w, n)
            && Enabled(Exec(s, disable), Run(tid, Succeed))
            && IsActive(Exec(Exec(s, disable), Run(tid, Succeed)).w, n)
  {
    assert ThreadInv(s, tid, s.threads[tid]);
    Disables(s, n);
    StillRuns(s, tid, n);
    var s' := Exec(s, OutsideUpdate(s.w.rows[n].(status := Disabled)));
    ActivatedExactly(s', Run(tid, Succeed), n);
  }

  lemma Disables(s: State, n: nat)
    requires Ident(s.w) && n in s.w.rows && !PortTaken(s.w, s.w.rows[n].port, n)
    ensures var disable := OutsideUpdate(s.w.rows[n].(status := Disabled));
            Enabled(s, disable) && Ident(Exec(s, disable).w) && IsDisabled(Exec(s, disable).w, n)
  {
  }

  lemma StillRuns(s: State, tid: Tid, n: nat)
    requires s.w.localAsn < U32 && tid in s.threads && n in s.w.rows
    requires s.threads[tid].task.ReconcileTask? || s.threads[tid].task.RecoverTask?
    requires Activating(s.threads[tid], n) && Enabled(s, OutsideUpdate(s.w.rows[n].(status := Disabled)))
    ensures Enabled(Exec(s, OutsideUpdate(s.w.rows[n].(status := Disabled))), Run(tid, Succeed))
  {
  }

  // ---- a lost reload ----

  // Another writer enables the row. The reconciler's switch of the link takes place although the flush after it
  // fails, and its next pass finds the files as it wants them.

  const WANTED := ROW.(status := Active)
  const CHANGE := Event(Update, WANTED)
  const CHANGED: World := REST.(rows := map[1 := WANTED], outbox := map[0 := CHANGE], nextEvent := 1)
  const FILES: Generation := map[1 := FragmentOf(4242420000, WANTED)]

  function Resting(w: World): State {
    State(w, Serving, map[], false)
  }

  function Working(w: World, t: Thread): State {
    State(w, Serving, map[Reconciler := t], false)
  }

  function Worker(point: Point, found: bool, snap: map<nat, Peer>): Thread {
    NewThread(ReconcileTask, point).(key := KEY, target := WANTED, mark := 0, found := found, snap := snap)
  }

  /** Before and after listing the rows. */
  function Applying(sub: Sub): Thread {
    Worker(In(sub, ChangeApply), true, if BirdHasSnap(sub) then CHANGED.rows else map[])
  }

  predicate NoReload(t: Thread) {
    t.point.In? ==> !t.point.sub.BirdReload? && !t.point.sub.BirdRestore? && t.point.site != RvBird
  }

  ghost predicate Works(w: World, t: Thread, w': World, t': Thread) {
    Leads(Working(w, t), Working(w', t'), false)
  }

  /** One action of the reconciler. */
  lemma WorkStep(w: World, t: Thread, out: Outcome, eff: Eff, w': World, t': Thread)
    requires w.localAsn < U32 && ValidTask(t.task) && NoReload(t)
    requires Micro(w, t, out) == (eff, Go(t')) && Apply(w, eff) == w'
    ensures Works(w, t, w', t')
  {
    LeadStep(Working(w, t), Run(Reconciler, out), Working(w', t'), false);
  }

  /** One call of a shared procedure. */
  lemma WorkCall(w: World, t: Thread, out: Outcome, eff: Eff, w': World, t': Thread)
    requires w.localAsn < U32 && ValidTask(t.task) && NoReload(t) && t.point.In?
    requires RunSub(w, t, t.point.sub, t.point.site, out) == (eff, Go(t')) && Apply(w, eff) == w'
    ensures Works(w, t, w', t')
  {
    WorkStep(w, t, out, eff, w', t');
  }

  lemma WorkOn(w: World, t: Thread, w1: World, t1: Thread, w': World, t': Thread)
    requires Works(w, t, w1, t1) && Works(w1, t1, w', t')
    ensures Works(w, t, w', t')
  {
    LeadOn(Working(w, t), Working(w1, t1), Working(w', t'), false);
  }

  lemma Enables()
    ensures Leads(SERVING, Resting(CHANGED), false)
  {
    assert REST.used + {1} == REST.used;
    LeadStep(SERVING, OutsideUpdate(WANTED), Resting(CHANGED), false);
  }

  predicate Told(w: World) {
    w.localAsn == 4242420000 && w.rows == CHANGED.rows && w.outbox == CHANGED.outbox
  }

  /** The reconciler takes the event and reads the row. */
  lemma Takes(w: World)
    requires Told(w)
    ensures Leads(Resting(w), Working(w, Applying(AddLink)), false)
  {
    var t := NewThread(ReconcileTask, NextChange).(events := w.outbox);
    LeadStep(Resting(w), StartReconcile, Working(w, t), false);
    assert 0 in w.outbox;
    assert Least(w.outbox) == 0 && w.outbox - {0} == map[];
    WorkStep(w, t, Succeed, Skip, w, Worker(WantPeer, false, map[]));
    LeadOn(Resting(w), Working(w, t), Working(w, Worker(WantPeer, false, map[])), false);
    Reads(w);
    LeadOn(Resting(w), Working(w, Worker(WantPeer, false, map[])), Working(w, Applying(AddLink)), false);
  }

  lemma Reads(w: World)
    requires Told(w)
    ensures Works(w, Worker(WantPeer, false, map[]), w, Applying(AddLink))
  {
    WorkStep(w, Worker(WantPeer, false, map[]), Succeed, Skip, w, Worker(ReadById, false, map[]));
    WorkStep(w, Worker(ReadById, false, map[]), Succeed, Skip, w, Applying(AddLink));
    WorkOn(w, Worker(WantPeer, false, map[]), w, Worker(ReadById, false, map[]), w, Applying(AddLink));
  }

  const TUNED := Tuned(BARE_LINK, WANTED, SetLink)
  const KEYED := Tuned(TUNED, WANTED, Configure)
  const LOCAL := Tuned(KEYED, WANTED, AddAddress)

  function With(w: World, i: Iface): World {
    w.(ifaces := map[1 := i])
  }

  /** A setting of the interface that is there. */
  lemma Sets(u: World, i: Iface, sub: Sub, next: Sub, u': World)
    requires u.localAsn < U32 && u.ifaces == map[1 := i] && (sub.SetLink? || sub.Configure? || sub.AddAddress?)
    requires LinkNext(sub, ChangeApply) == In(next, ChangeApply) && u' == u.(ifaces := map[1 := Tuned(i, WANTED, sub)])
    ensures Works(u, Applying(sub), u', Applying(next))
  {
    SetActs(u, i, sub, next);
    SetOn(u, Applying(sub), sub, Tuned(i, WANTED, sub), u', Applying(next));
  }

  lemma SetOn(u: World, t: Thread, sub: Sub, i': Iface, u': World, t': Thread)
    requires u.localAsn < U32 && t.task.ReconcileTask? && t.point == In(sub, ChangeApply)
    requires !BirdSub(sub) && !NftSub(sub)
    requires RunLink(u, t, sub, ChangeApply, Succeed) == (SetIface(1, i'), Go(t'))
    requires 1 in u.ifaces && u.ifaces - {1} == map[] && u' == u.(ifaces := map[1 := i'])
    ensures Works(u, t, u', t')
  {
    assert u.ifaces[1 := i'] == map[1 := i'];
    WorkLink(u, t, sub, SetIface(1, i'), u', t');
  }

  lemma WorkLink(w: World, t: Thread, sub: Sub, eff: Eff, w': World, t': Thread)
    requires w.localAsn < U32 && ValidTask(t.task) && t.point == In(sub, ChangeApply) && !BirdSub(sub) && !NftSub(sub)
    requires RunLink(w, t, sub, ChangeApply, Succeed) == (eff, Go(t')) && Apply(w, eff) == w'
    ensures Works(w, t, w', t')
  {
    WorkCall(w, t, Succeed, eff, w', t');
  }

  lemma SetActs(w: World, i: Iface, sub: Sub, next: Sub)
    requires sub.SetLink? || sub.Configure? || sub.AddAddress?
    requires LinkNext(sub, ChangeApply) == In(next, ChangeApply) && w.ifaces == map[1 := i]
    ensures RunLink(w, Applying(sub), sub, ChangeApply, Succeed)
         == (SetIface(1, Tuned(i, WANTED, sub)), Go(Applying(next)))
  {
  }

  lemma Configures(w: World, i: Iface)
    requires Told(w)
    ensures var k := Tuned(Tuned(Tuned(i, WANTED, SetLink), WANTED, Configure), WANTED, AddAddress);
            Works(With(w, i), Applying(SetLink), With(w, k), Applying(BirdList))
  {
    var i1 := Tuned(i, WANTED, SetLink);
    var i2 := Tuned(i1, WANTED, Configure);
    var i3 := Tuned(i2, WANTED, AddAddress);
    Sets(With(w, i), i, SetLink, Configure, With(w, i1));
    Sets(With(w, i1), i1, Configure, AddAddress, With(w, i2));
    Sets(With(w, i2), i2, AddAddress, BirdList, With(w, i3));
    WorkOn(With(w, i), Applying(SetLink), With(w, i1), Applying(Configure), With(w, i2), Applying(AddAddress));
    WorkOn(With(w, i), Applying(SetLink), With(w, i2), Applying(AddAddress), With(w, i3), Applying(BirdList));
  }

  /** The first pass adds the link, the second finds it. */
  lemma AddsLink()
    ensures Works(CHANGED, Applying(AddLink), With(CHANGED, LOCAL), Applying(BirdList))
  {
    assert Apply(CHANGED, SetIface(1, BARE_LINK)) == With(CHANGED, BARE_LINK);
    WorkCall(CHANGED, Applying(AddLink), Succeed, SetIface(1, BARE_LINK), With(CHANGED, BARE_LINK), Applying(SetLink));
    Configures(CHANGED, BARE_LINK);
    WorkOn(CHANGED, Applying(AddLink), With(CHANGED, BARE_LINK), Applying(SetLink),
           With(CHANGED, LOCAL), Applying(BirdList));
  }

  lemma FindsLink(w: World)
    requires Told(w) && w == With(w, LOCAL)
    ensures Works(w, Applying(AddLink), w, Applying(BirdList))
  {
    WorkCall(w, Applying(AddLink), Succeed, Skip, w, Applying(SetLink));
    assert LOCAL.addrs + {WANTED.localLl} == LOCAL.addrs;
    Configures(w, LOCAL);
    WorkOn(w, Applying(AddLink), w, Applying(SetLink), w, Applying(BirdList));
  }

  lemma Lists(w: World)
    requires Told(w)
    ensures Works(w, Applying(BirdList), w, Applying(BirdCompare))
  {
    WorkCall(w, Applying(BirdList), Succeed, Skip, w, Applying(BirdWait));
    WorkCall(w, Applying(BirdWait), Succeed, Skip, w, Applying(BirdCompare));
    WorkOn(w, Applying(BirdList), w, Applying(BirdWait), w, Applying(BirdCompare));
  }

  lemma FilesWanted()
    ensures DesiredGeneration(4242420000, CHANGED.rows) == FILES && FILES != map[] && !BadIfaceName(CHANGED.rows)
    ensures DesiredPorts(CHANGED.rows) == {20_001}
  {
    assert 1 in FILES;
  }

  const OPENED: World := With(CHANGED, LOCAL)
  const SWITCHED: World := OPENED.(current := Some(FILES))
  const SYNCED: World := SWITCHED.(ports := {20_001})
  const QUIET: World := SYNCED.(outbox := map[])

  lemma FilesDiffer()
    ensures Works(OPENED, Applying(BirdCompare), OPENED, Applying(BirdPeek))
  {
    FilesWanted();
    WorkCall(OPENED, Applying(BirdCompare), Succeed, Skip, OPENED, Applying(BirdPeek));
  }

  lemma Compares()
    ensures Works(OPENED, Applying(BirdCompare), OPENED, Applying(BirdSwitch(Some(map[]))))
  {
    FilesDiffer();
    WorkCall(OPENED, Applying(BirdPeek), Succeed, Skip, OPENED, Applying(BirdSwitch(Some(map[]))));
    WorkOn(OPENED, Applying(BirdCompare), OPENED, Applying(BirdPeek), OPENED, Applying(BirdSwitch(Some(map[]))));
  }

  /** The link moves, the flush fails, and the reconciler gives up on the event for now. */
  lemma Switches()
    ensures Works(OPENED, Applying(BirdSwitch(Some(map[]))), SWITCHED, Worker(NextChange, true, CHANGED.rows))
  {
    FilesWanted();
    WorkCall(OPENED, Applying(BirdSwitch(Some(map[]))), FailAfter, SetCurrent(Some(FILES)),
             SWITCHED, Worker(NextChange, true, CHANGED.rows));
  }

  lemma Ends(w: World)
    requires w.localAsn < U32
    ensures Leads(Working(w, Worker(NextChange, true, CHANGED.rows)), Resting(w), false)
  {
    LeadStep(Working(w, Worker(NextChange, true, CHANGED.rows)), Run(Reconciler, Succeed), Resting(w), false);
  }

  lemma FirstPass()
    ensures Leads(Resting(CHANGED), Resting(SWITCHED), false)
  {
    Takes(CHANGED);
    AddsLink();
    LeadOn(Resting(CHANGED), Working(CHANGED, Applying(AddLink)), Working(OPENED, Applying(BirdList)), false);
    SwitchLate();
    LeadOn(Resting(CHANGED), Working(OPENED, Applying(BirdList)), Resting(SWITCHED), false);
  }

  lemma SwitchLate()
    ensures Leads(Working(OPENED, Applying(BirdList)), Resting(SWITCHED), false)
  {
    Lists(OPENED);
    Compares();
    WorkOn(OPENED, Applying(BirdList), OPENED, Applying(BirdCompare), OPENED, Applying(BirdSwitch(Some(map[]))));
    Switches();
    WorkOn(OPENED, Applying(BirdList), OPENED, Applying(BirdSwitch(Some(map[]))),
           SWITCHED, Worker(NextChange, true, CHANGED.rows));
    Ends(SWITCHED);
    LeadOn(Working(OPENED, Applying(BirdList)), Working(SWITCHED, Worker(NextChange, true, CHANGED.rows)),
           Resting(SWITCHED), false);
  }

  /** The files match, so there is no reload. */
  lemma Matches()
    ensures Works(SWITCHED, Applying(BirdCompare), SWITCHED, Opening(NftList))
  {
    FilesWanted();
    WorkCall(SWITCHED, Applying(BirdCompare), Succeed, Skip,
             SWITCHED, Opening(NftList));
  }

  function Opening(sub: Sub): Thread {
    Worker(In(sub, ChangeNft), true, CHANGED.rows)
  }

  lemma Batch()
    ensures Works(SWITCHED, Opening(NftRun), SYNCED, Worker(DropChange, true, CHANGED.rows))
  {
    FilesWanted();
    WorkCall(SWITCHED, Opening(NftRun), Succeed, SetPorts({20_001}), SYNCED, Worker(DropChange, true, CHANGED.rows));
  }

  lemma OpensLate()
    ensures Works(SWITCHED, Opening(NftWait), SYNCED, Worker(DropChange, true, CHANGED.rows))
  {
    WorkCall(SWITCHED, Opening(NftWait), Succeed, Skip, SWITCHED, Opening(NftRun));
    Batch();
    WorkOn(SWITCHED, Opening(NftWait), SWITCHED, Opening(NftRun), SYNCED, Worker(DropChange, true, CHANGED.rows));
  }

  lemma Opens()
    ensures Works(SWITCHED, Opening(NftList), SYNCED, Worker(DropChange, true, CHANGED.rows))
  {
    WorkCall(SWITCHED, Opening(NftList), Succeed, Skip, SWITCHED, Opening(NftWait));
    OpensLate();
    WorkOn(SWITCHED, Opening(NftList), SWITCHED, Opening(NftWait), SYNCED, Worker(DropChange, true, CHANGED.rows));
  }

  lemma DropsEvent()
    ensures Leads(Working(SYNCED, Worker(DropChange, true, CHANGED.rows)), Resting(QUIET), false)
  {
    assert SYNCED.outbox - {0} == map[];
    var t, t' := Worker(DropChange, true, CHANGED.rows), Worker(NextChange, true, CHANGED.rows);
    WorkStep(SYNCED, t, Succeed, DropEvent(0), QUIET, t');
    Ends(QUIET);
    LeadOn(Working(SYNCED, t), Working(QUIET, t'), Resting(QUIET), false);
  }

  lemma SecondPass()
    ensures Leads(Resting(SWITCHED), Resting(QUIET), false)
  {
    Takes(SWITCHED);
    FindsLink(SWITCHED);
    LeadOn(Resting(SWITCHED), Working(SWITCHED, Applying(AddLink)), Working(SWITCHED, Applying(BirdList)), false);
    MatchLate();
    LeadOn(Resting(SWITCHED), Working(SWITCHED, Applying(BirdList)), Resting(QUIET), false);
  }

  lemma MatchLate()
    ensures Leads(Working(SWITCHED, Applying(BirdList)), Resting(QUIET), false)
  {
    var list, drop := Opening(NftList), Worker(DropChange, true, CHANGED.rows);
    Lists(SWITCHED);
    Matches();
    WorkOn(SWITCHED, Applying(BirdList), SWITCHED, Applying(BirdCompare), SWITCHED, list);
    Opens();
    WorkOn(SWITCHED, Applying(BirdList), SWITCHED, list, SYNCED, drop);
    DropsEvent();
    LeadOn(Working(SWITCHED, Applying(BirdList)), Working(SYNCED, drop), Resting(QUIET), false);
  }

  lemma Joins(s: State, s': State)
    requires Reaches(s, s')
    ensures Leads(s, s', false)
  {
    var states, steps :| Links(states, steps, s, s', true);
    assert Links(states, steps, s, s', false);
  }

  /** From a stopped service a run leads to a serving process with an empty outbox whose link shows the
      configuration the table asks for, while BIRD has no file loaded. One call has failed. */
  lemma LostReload()
    ensures Leftover(STOPPED) && Leads(STOPPED, Resting(QUIET), false)
    ensures Resting(QUIET).phase == Serving && QUIET.outbox == map[]
    ensures var wanted := DesiredGeneration(QUIET.localAsn, QUIET.rows);
            QUIET.current == Some(wanted) && wanted != map[]
  {
    Starts();
    Joins(STOPPED, SERVING);
    Enables();
    LeadOn(STOPPED, SERVING, Resting(CHANGED), false);
    FirstPass();
    LeadOn(STOPPED, Resting(CHANGED), Resting(SWITCHED), false);
    SecondPass();
    LeadOn(STOPPED, Resting(SWITCHED), Resting(QUIET), false);
    FilesWanted();
  }

  /** The same as a run beside which BIRD has had no file loaded all the time. */
  lemma LostReloadRun() returns (states: seq<State>, steps: seq<Step>, again: seq<bool>, loaded: seq<Generation>)
    ensures Daemon.IsDaemonRun(states, steps, again, loaded) && Leftover(states[0])
    ensures var s := states[|steps|];
            && s.phase == Serving && s.w.outbox == map[] && loaded[|steps|] == map[]
            && s.w.current == Some(DesiredGeneration(s.w.localAsn, s.w.rows))
            && DesiredGeneration(s.w.localAsn, s.w.rows) != loaded[|steps|]
  {
    LostReload();
    states, steps :| Links(states, steps, STOPPED, Resting(QUIET), false);
    LinksRun(states, steps, STOPPED, Resting(QUIET), false);
    again, loaded := seq(|steps|, _ => false), seq(|states|, _ => map[]);
  }
}
