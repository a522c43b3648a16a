/** What the reconciliation protocol guarantees in every interleaving, across failed calls,
    crashes, reboots and writers outside the service. */
module Guarantees {
  import opened Peers
  import opened World
  import opened Machine
  import opened Invariant
  import SystemProof
  import RecoveryProof

  // ---- convergence ----

  /** All external systems that events drive agree with the table, and no status is in transit. */
  ghost predicate Converged(w: World) {
    && (forall n :: n in w.rows ==> w.rows[n].status == Active || w.rows[n].status == Disabled)
    && (forall n :: n in w.ifaces <==> n in w.rows && Wanted(w.rows[n]))
    && (forall n :: n in w.ifaces ==> Configured(w.ifaces[n], w.rows[n]))
    && w.current == Some(DesiredGeneration(w.localAsn, w.rows))
  }

  /** The same without the functions of the program: exactly the active rows have an interface and a file. */
  ghost predicate PlainlyConverged(w: World) {
    && (forall n :: n in w.rows ==> w.rows[n].status == Active || w.rows[n].status == Disabled)
    && (forall n :: n in w.ifaces <==> n in w.rows && w.rows[n].status == Active)
    && (forall n :: n in w.ifaces ==> SetUpFor(w.ifaces[n], w.rows[n]))
    && w.current.Some? && ShowsRows(w.current.value, w.localAsn, w.rows)
  }

  predicate SetUpFor(i: Iface, p: Peer) {
    && i.alias == Some(p.id) && i.mtu == Some(p.mtu) && p.localLl in i.addrs
    && i.wg.Some? && i.wg.value.port == p.port && i.wg.value.pubkey == p.pubkey
  }

  /** When a serving process has no event left, the outside world is what the table asks for. */
  lemma EmptyOutboxConverged(states: seq<State>, steps: seq<Step>, i: nat)
    requires IsRun(states, steps) && Leftover(states[0]) && i < |states|
    requires states[i].phase == Serving && states[i].w.outbox == map[]
    ensures Converged(states[i].w) && PlainlyConverged(states[i].w)
  {
    SystemProof.RunInv(states, steps, i);
    var s := states[i];
    assert forall e :: !Live(s, e);
    forall n ensures Settled(s.w, n) && IfaceMatches(s.w, n) {
      assert !Pending(s, n);
    }
    AllSettled(s.w);
    ConvergedPlainly(s.w);
  }

  lemma ConvergedPlainly(w: World)
    requires Converged(w)
    ensures PlainlyConverged(w)
  {
    DesiredShowsRows(w.localAsn, w.rows);
  }

  lemma AllSettled(w: World)
    requires Ident(w) && BirdSettled(w) && forall n :: Settled(w, n)
    ensures Converged(w)
  {
    assert forall n :: n in w.rows ==> Settled(w, n);
    assert forall n :: n in w.ifaces ==> Settled(w, n);
  }

  /** The same for one peer: without an event for it, row and interface agree. */
  lemma QuietPeerSettled(states: seq<State>, steps: seq<Step>, i: nat, n: nat)
    requires IsRun(states, steps) && Leftover(states[0]) && i < |states| && states[i].phase == Serving
    requires forall e :: e in states[i].w.outbox ==> states[i].w.outbox[e].peer.id != n
    ensures Settled(states[i].w, n)
  {
    SystemProof.RunInv(states, steps, i);
  }

  /** Deleting an event is always justified: what it covered agrees or is covered by another event. */
  lemma RetiredEventWasApplied(states: seq<State>, steps: seq<Step>, i: nat, e: nat)
    requires IsRun(states, steps) && Leftover(states[0]) && i < |steps|
    requires e in states[i].w.outbox && e !in states[i + 1].w.outbox
    ensures var w := states[i].w;
            var n := w.outbox[e].peer.id;
            && (Settled(w, n) || exists d :: d in w.outbox && d != e && w.outbox[d].peer.id == n)
            && (BirdSettled(w) || exists d :: d in w.outbox && d != e)
  {
    SystemProof.RunInv(states, steps, i);
    SystemProof.RunInv(states, steps, i + 1);
    var s := states[i];
    var n := s.w.outbox[e].peer.id;
    OnlyDropRemoves(s, steps[i], e);
    assert forall d :: Live(s, d) ==> d != e;
    if !Settled(s.w, n) {
      var d :| Live(s, d) && s.w.outbox[d].peer.id == n;
    }
    if !BirdSettled(s.w) {
      var d :| Live(s, d);
    }
  }

  lemma OnlyDropRemoves(s: State, step: Step, e: nat)
    requires Inv(s) && Enabled(s, step) && e in s.w.outbox && e !in Exec(s, step).w.outbox
    ensures s.phase == Serving && Retiring(s) == Some(e)
  {
    if step.Run? {
      ActionDrops(s, step.tid, step.out, e);
    } else {
      OthersOnlyAdd(s, step, e);
    }
  }

  lemma OthersOnlyAdd(s: State, step: Step, e: nat)
    requires Enabled(s, step) && !step.Run? && e in s.w.outbox
    ensures e in Exec(s, step).w.outbox
  {
  }

  lemma OnlyDropEvent(w: World, eff: Eff, e: nat)
    requires e in w.outbox && e !in Apply(w, eff).outbox
    ensures eff == DropEvent(e)
  {
  }

  lemma ActionDrops(s: State, tid: Tid, out: Outcome, e: nat)
    requires Inv(s) && Enabled(s, Run(tid, out)) && e in s.w.outbox && e !in Exec(s, Run(tid, out)).w.outbox
    ensures s.phase == Serving && Retiring(s) == Some(e)
  {
    SystemProof.ActionAllowed(s, tid, out);
    RunDrops(s, tid, out, e);
    AllowedDropEvent(s, tid, e);
  }

  lemma RunDrops(s: State, tid: Tid, out: Outcome, e: nat)
    requires Enabled(s, Run(tid, out)) && e in s.w.outbox && e !in Exec(s, Run(tid, out)).w.outbox
    ensures Micro(s.w, s.threads[tid], out).0 == DropEvent(e)
  {
    var (eff, k) := Micro(s.w, s.threads[tid], out);
    assert Exec(s, Run(tid, out)).w == Apply(s.w, eff);
    OnlyDropEvent(s.w, eff, e);
  }

  lemma AllowedDropEvent(s: State, tid: Tid, e: nat)
    requires Inv(s) && Allowed(s, tid, DropEvent(e))
    ensures s.phase == Serving && Retiring(s) == Some(e)
  {
    assert ThreadInv(s, Reconciler, s.threads[Reconciler]);
  }

  // ---- no orphans ----

  /** At every moment, also across crashes and outside deletions, an interface of the service has
      its row or a recorded deletion that will remove it. */
  lemma NoOrphanInterface(states: seq<State>, steps: seq<Step>, i: nat, n: nat)
    requires IsRun(states, steps) && Leftover(states[0]) && i < |states|
    requires n in states[i].w.ifaces && n !in states[i].w.rows
    ensures exists e :: e in states[i].w.outbox && states[i].w.outbox[e].op == Delete
              && states[i].w.outbox[e].peer.id == n
  {
    SystemProof.RunInv(states, steps, i);
    var e :| Live(states[i], e) && states[i].w.outbox[e].peer.id == n && states[i].w.outbox[e].op == Delete;
  }

  /** When recovery reports success, every interface, with or without an alias, belongs to a row that was
      wanted when recovery read the table, and BIRD shows exactly those rows. */
  lemma RecoveryLeavesNoOrphan(states: seq<State>, steps: seq<Step>, i: nat)
    requires IsRun(states, steps) && Leftover(states[0]) && i < |steps|
    requires states[i].phase == Recovering && states[i + 1].phase == Serving
    ensures Recovery in states[i].threads
    ensures var snap := states[i].threads[Recovery].snap;
            && states[i + 1].w.ifaces.Keys <= WantedIds(snap)
            && states[i + 1].w.current == Some(DesiredGeneration(states[i].w.localAsn, snap))
  {
    SystemProof.RunInv(states, steps, i);
    RecoveryEnds(states[i], steps[i]);
  }

  lemma RecoveryEnds(s: State, step: Step)
    requires Inv(s) && Enabled(s, step) && s.phase == Recovering && Exec(s, step).phase == Serving
    ensures Recovery in s.threads
    ensures var snap := s.threads[Recovery].snap;
            && Exec(s, step).w.ifaces.Keys <= WantedIds(snap)
            && Exec(s, step).w.current == Some(DesiredGeneration(s.w.localAsn, snap))
  {
    LastStep(s, step);
    EndCleared(s);
  }

  lemma LastStep(s: State, step: Step)
    requires Phases(s) && (Recovery in s.threads ==> s.threads[Recovery].task.RecoverTask?)
    requires Enabled(s, step) && s.phase == Recovering && Exec(s, step).phase == Serving
    ensures Recovery in s.threads && s.threads[Recovery].point.RvActivateNext? && Exec(s, step).w == s.w
  {
    assert step.Run? && step.tid == Recovery;
    ReadyLast(s.w, s.threads[Recovery], step.out);
  }

  lemma EndCleared(s: State)
    requires Inv(s) && Recovery in s.threads && s.threads[Recovery].point.RvActivateNext?
    ensures var snap := s.threads[Recovery].snap;
            s.w.ifaces.Keys <= WantedIds(snap) && s.w.current == Some(DesiredGeneration(s.w.localAsn, snap))
  {
    var t := s.threads[Recovery];
    assert RecoveryInv(s, t);
    forall n | n in s.w.ifaces ensures n in WantedIds(t.snap) {
      assert !Stray(s.w, t.snap, n);
    }
  }

  /** Recovery reports success only at its very end. */
  lemma ReadyLast(w: World, t: Thread, out: Outcome)
    requires w.localAsn < U32 && ValidTask(t.task) && t.task.RecoverTask? && Micro(w, t, out).1.Ready?
    ensures t.point.RvActivateNext? && Micro(w, t, out).0.Skip?
  {
  }

  lemma DropsAtDropLink(w: World, t: Thread, out: Outcome)
    requires w.localAsn < U32 && ValidTask(t.task) && t.task.ReconcileTask? && Micro(w, t, out).0.DropIface?
    ensures t.point.In? && t.point.sub.DropLink?
  {
  }

  /** The event e accounts for the removal of interface n. */
  ghost predicate Justifies(w: World, e: nat, n: nat) {
    && e in w.outbox && w.outbox[e].peer.id == n
    && ((n in w.rows ==> !Wanted(w.rows[n])) || Other(w, n, e))
  }

  lemma RemovalFacts(s: State, t: Thread, out: Outcome)
    requires s.w.localAsn < U32 && ValidTask(t.task) && ReconcilerInv(s, t) && Micro(s.w, t, out).0.DropIface?
    ensures Justifies(s.w, t.mark, t.target.id)
  {
    DropsAtDropLink(s.w, t, out);
    assert RemoveFacts(s.w, t, t.point.sub) && Claim(s.w, t);
  }

  /** The reconciler removes an interface only while it works on an event of that very peer, and only if the
      peer's row is gone or not wanted, or another event of the peer is still to come. So the event of a
      deleted peer never costs a peer its interface that was created anew under the same name. */
  lemma RemovalJustified(states: seq<State>, steps: seq<Step>, i: nat, out: Outcome, n: nat)
    requires IsRun(states, steps) && Leftover(states[0]) && i < |steps| && steps[i] == Run(Reconciler, out)
    requires n in states[i].w.ifaces && n !in states[i + 1].w.ifaces
    ensures Reconciler in states[i].threads && Justifies(states[i].w, states[i].threads[Reconciler].mark, n)
  {
    SystemProof.RunInv(states, steps, i);
    ReconcilerRemoves(states[i], out, n);
  }

  lemma ReconcilerRemoves(s: State, out: Outcome, n: nat)
    requires Inv(s) && Enabled(s, Run(Reconciler, out))
    requires n in s.w.ifaces && n !in Exec(s, Run(Reconciler, out)).w.ifaces
    ensures Justifies(s.w, s.threads[Reconciler].mark, n)
  {
    RemovalEffect(s, out, n);
    assert ThreadInv(s, Reconciler, s.threads[Reconciler]);
    RemovalFacts(s, s.threads[Reconciler], out);
  }

  lemma RemovalEffect(s: State, out: Outcome, n: nat)
    requires Inv(s) && Enabled(s, Run(Reconciler, out))
    requires n in s.w.ifaces && n !in Exec(s, Run(Reconciler, out)).w.ifaces
    ensures Micro(s.w, s.threads[Reconciler], out).0 == DropIface(n) && s.threads[Reconciler].target.id == n
  {
    RunRemoves(s, out, n);
    SystemProof.ActionAllowed(s, Reconciler, out);
    AllowedDrop(s, Reconciler, n);
  }

  lemma RunRemoves(s: State, out: Outcome, n: nat)
    requires Enabled(s, Run(Reconciler, out))
    requires n in s.w.ifaces && n !in Exec(s, Run(Reconciler, out)).w.ifaces
    ensures Micro(s.w, s.threads[Reconciler], out).0 == DropIface(n)
  {
    OnlyDropIface(s.w, Micro(s.w, s.threads[Reconciler], out).0, n);
  }

  lemma AllowedDrop(s: State, tid: Tid, n: nat)
    requires Allowed(s, tid, DropIface(n)) && tid != Recovery
    ensures tid in s.threads && s.threads[tid].target.id == n
  {
  }

  lemma OnlyDropIface(w: World, eff: Eff, n: nat)
    requires n in w.ifaces && n !in Apply(w, eff).ifaces
    ensures eff == DropIface(n)
  {
  }

  // ---- the nftables set ----

  /** Between states i and j the thread waits for the nftables lock and does nothing else. */
  ghost predicate OnlyWaits(states: seq<State>, steps: seq<Step>, i: nat, j: nat, tid: Tid)
    requires IsRun(states, steps) && i < j < |steps|
  {
    forall k :: i < k < j ==> tid in states[k].threads && Waits(states[k], steps[k], tid)
  }

  /** The step is another's, or the thread's wait for the nftables lock. */
  predicate Waits(s: State, step: Step, tid: Tid)
    requires tid in s.threads
  {
    step.Run? && step.tid == tid ==> s.threads[tid].point.In? && s.threads[tid].point.sub.NftWait?
  }

  lemma RunPhases(states: seq<State>, steps: seq<Step>, i: nat)
    requires IsRun(states, steps) && Leftover(states[0]) && i < |states|
    ensures Phases(states[i])
  {
    SystemProof.RunInv(states, steps, i);
  }

  lemma WaitKeepsSnap(s: State, step: Step, s': State, tid: Tid)
    requires Enabled(s, step) && s' == Exec(s, step) && Phases(s)
    requires tid in s.threads && tid in s'.threads && Waits(s, step, tid)
    ensures s'.threads[tid].snap == s.threads[tid].snap
  {
    if step.Run? { RunKeepsSnap(s, step.tid, step.out, tid); } else { OthersKeepSnap(s, step, tid); }
  }

  lemma RunKeepsSnap(s: State, u: Tid, out: Outcome, tid: Tid)
    requires Enabled(s, Run(u, out)) && tid in s.threads && tid in Exec(s, Run(u, out)).threads
    requires Waits(s, Run(u, out), tid)
    ensures Exec(s, Run(u, out)).threads[tid].snap == s.threads[tid].snap
  {
    var (eff, k) := Micro(s.w, s.threads[u], out);
    if u == tid { WaitActs(s.w, s.threads[u], out); }
    ContinueSnap(s, u, Apply(s.w, eff), k, tid);
  }

  lemma WaitActs(w: World, t: Thread, out: Outcome)
    requires w.localAsn < U32 && ValidTask(t.task) && t.point.In? && t.point.sub.NftWait?
    ensures Micro(w, t, out).1 == Go(t.(point := In(NftRun, t.point.site)))
  {
  }

  lemma ContinueSnap(s: State, u: Tid, w: World, k: Cont, tid: Tid)
    requires tid in s.threads && tid in Continue(s, u, w, k).threads
    requires u == tid && k.Go? ==> k.t.snap == s.threads[tid].snap
    ensures Continue(s, u, w, k).threads[tid].snap == s.threads[tid].snap
  {
  }

  lemma OthersKeepSnap(s: State, step: Step, tid: Tid)
    requires Enabled(s, step) && !step.Run? && Phases(s) && tid in s.threads && tid in Exec(s, step).threads
    ensures Exec(s, step).threads[tid].snap == s.threads[tid].snap
  {
  }

  ghost predicate SameSnap(s: State, s': State, tid: Tid) {
    tid in s.threads && tid in s'.threads && s'.threads[tid].snap == s.threads[tid].snap
  }

  lemma WaitStep(states: seq<State>, steps: seq<Step>, k: nat, tid: Tid)
    requires IsRun(states, steps) && Leftover(states[0]) && k < |steps|
    requires tid in states[k].threads && tid in states[k + 1].threads && Waits(states[k], steps[k], tid)
    ensures SameSnap(states[k], states[k + 1], tid)
  {
    RunPhases(states, steps, k);
    WaitKeepsSnap(states[k], steps[k], states[k + 1], tid);
  }

  lemma {:induction false} SnapKept(states: seq<State>, i: nat, j: nat, tid: Tid)
    requires i <= j < |states| && tid in states[i].threads
    requires forall k :: i <= k < j ==> SameSnap(states[k], states[k + 1], tid)
    ensures SameSnap(states[i], states[j], tid)
  {
    if i < j {
      SnapKept(states, i, j - 1, tid);
      assert SameSnap(states[j - 1], states[j - 1 + 1], tid);
    }
  }

  /** A synchronisation of the nftables set by any thread, in any run: it lists the rows at step i and
      runs its batch at step j. Whatever the set was, it ends up as the table wants it if and only if
      the wanted ports are still those of the rows it listed. */
  lemma NftSyncExactly(states: seq<State>, steps: seq<Step>, i: nat, j: nat, tid: Tid, site: Site)
    requires IsRun(states, steps) && Leftover(states[0]) && i < j < |steps| && OnlyWaits(states, steps, i, j, tid)
    requires steps[i] == Run(tid, Succeed) && steps[j] == Run(tid, Succeed)
    requires states[i].threads[tid].point == In(NftList, site)
    requires tid in states[j].threads && states[j].threads[tid].point.In? && states[j].threads[tid].point.sub.NftRun?
    ensures states[j + 1].w.rows == states[j].w.rows && states[j + 1].w.ports == DesiredPorts(states[i].w.rows)
    ensures states[j + 1].w.ports == DesiredPorts(states[j + 1].w.rows)
            <==> DesiredPorts(states[j].w.rows) == DesiredPorts(states[i].w.rows)
  {
    assert states[i + 1] == Exec(states[i], steps[i]) && states[j + 1] == Exec(states[j], steps[j]);
    ListTakesSnap(states[i], tid, site);
    forall k | i + 1 <= k < j ensures SameSnap(states[k], states[k + 1], tid) {
      WaitStep(states, steps, k, tid);
    }
    SnapKept(states, i + 1, j, tid);
    RunSetsPorts(states[j], tid);
  }

  lemma ListTakesSnap(s: State, tid: Tid, site: Site)
    requires Enabled(s, Run(tid, Succeed)) && s.threads[tid].point == In(NftList, site)
    ensures var s' := Exec(s, Run(tid, Succeed)); tid in s'.threads && s'.threads[tid].snap == s.w.rows
  {
  }

  lemma RunSetsPorts(s: State, tid: Tid)
    requires Enabled(s, Run(tid, Succeed)) && s.threads[tid].point.In? && s.threads[tid].point.sub.NftRun?
    ensures Exec(s, Run(tid, Succeed)).w == s.w.(ports := DesiredPorts(s.threads[tid].snap))
  {
  }

  // ---- locks ----

  /** At most one operation per (ASN, name) is inside its critical section, and the three shared
      locks have at most one holder each. */
  lemma MutualExclusion(states: seq<State>, steps: seq<Step>, i: nat, u: Tid, v: Tid, lock: Lock)
    requires IsRun(states, steps) && Leftover(states[0]) && i < |states|
    requires u in states[i].threads && v in states[i].threads
    requires Holds(states[i].threads[u], lock) && Holds(states[i].threads[v], lock)
    ensures u == v
  {
    SystemProof.RunInv(states, steps, i);
  }

  predicate Shared(lock: Lock) {
    !lock.PeerLock?
  }

  /** One peer lock and one shared lock at most; a shared lock is the last one taken. */
  lemma LockOrder(t: Thread)
    ensures forall a, b :: Holds(t, a) && Holds(t, b) && Shared(a) == Shared(b) ==> a == b
    ensures (exists a :: Holds(t, a) && Shared(a)) ==> Wants(t).None?
    ensures Wants(t).Some? && Wants(t).value.PeerLock? ==> forall a :: !Holds(t, a)
  {
  }

  /** Operations never deadlock: as long as one is in flight, one can act. */
  lemma NoDeadlock(s: State, tid: Tid) returns (u: Tid)
    requires tid in s.threads
    ensures u in s.threads && Runnable(s, u)
  {
    u := tid;
    if !Runnable(s, u) {
      u := Blocker(s, u);
      if !Runnable(s, u) {
        LockOrder(s.threads[u]);
        u := Blocker(s, u);
        LockOrder(s.threads[u]);
      }
    }
  }

  /** Who holds the lock a blocked operation waits for. */
  lemma Blocker(s: State, tid: Tid) returns (u: Tid)
    requires tid in s.threads && !Runnable(s, tid)
    ensures Wants(s.threads[tid]).Some? && u in s.threads && Holds(s.threads[u], Wants(s.threads[tid]).value)
  {
    u :| u in s.threads && u != tid && Holds(s.threads[u], Wants(s.threads[tid]).value);
  }
}
