/** Recovery without outside writers: however often it is interrupted and started again, a
    successful recovery makes everything a function of the rows it was first started on. */
module Repair {
  import opened Peers
  import opened World
  import opened Machine
  import opened Invariant
  import SystemProof
  import RecoveryProof

  /** The table a recovery aims for: deletions finished, wanted rows active. */
  function Recovered(rows: map<nat, Peer>): map<nat, Peer> {
    map n | n in rows && rows[n].status != Deleting ::
      if Wanted(rows[n]) then rows[n].(status := Active) else rows[n]
  }

  predicate RowBetween(rows: map<nat, Peer>, later: map<nat, Peer>, n: nat) {
    && (n in later ==>
          n in rows && (later[n] == rows[n] || (Wanted(rows[n]) && later[n] == rows[n].(status := Active))))
    && (n in rows && n !in later ==> rows[n].status == Deleting)
  }

  /** `later` is a table that a recovery of `rows` may have left when it stopped. */
  ghost predicate Between(rows: map<nat, Peer>, later: map<nat, Peer>) {
    forall n :: RowBetween(rows, later, n)
  }

  lemma BetweenTransitive(a: map<nat, Peer>, b: map<nat, Peer>, c: map<nat, Peer>)
    requires Between(a, b) && Between(b, c)
    ensures Between(a, c)
  {
    forall n ensures RowBetween(a, c, n) {
      assert RowBetween(a, b, n) && RowBetween(b, c, n);
    }
  }

  lemma SamePorts(rows: map<nat, Peer>, later: map<nat, Peer>)
    requires WantedIds(later) == WantedIds(rows) && forall n :: n in WantedIds(rows) ==> later[n].port == rows[n].port
    ensures DesiredPorts(later) == DesiredPorts(rows)
  {
    forall p | p in DesiredPorts(rows) ensures p in DesiredPorts(later) {
      var n :| n in rows && Wanted(rows[n]) && rows[n].port == p;
      assert n in WantedIds(later);
    }
    forall p | p in DesiredPorts(later) ensures p in DesiredPorts(rows) {
      var n :| n in later && Wanted(later[n]) && later[n].port == p;
      assert n in WantedIds(rows);
    }
  }

  /** An interrupted recovery changes neither its goal nor what it shows to the outside. */
  lemma SameGoal(localAsn: nat, rows: map<nat, Peer>, later: map<nat, Peer>)
    requires Between(rows, later)
    ensures Recovered(later) == Recovered(rows)
    ensures WantedIds(later) == WantedIds(rows)
    ensures DesiredGeneration(localAsn, later) == DesiredGeneration(localAsn, rows)
    ensures DesiredPorts(later) == DesiredPorts(rows)
  {
    assert forall n :: n in rows || n in later ==> RowBetween(rows, later, n);
    assert forall n :: n in WantedIds(rows) <==> n in WantedIds(later);
    SamePorts(rows, later);
    assert forall n :: n in DesiredGeneration(localAsn, rows) <==> n in DesiredGeneration(localAsn, later);
    assert forall n :: n in Recovered(rows) <==> n in Recovered(later);
  }

  // ---- one attempt ----

  predicate Up(w: World, snap: map<nat, Peer>, n: nat) {
    n in snap && n in w.ifaces && Configured(w.ifaces[n], snap[n])
  }

  predicate AllUp(w: World, snap: map<nat, Peer>, ids: set<nat>) {
    forall n :: n in ids ==> Up(w, snap, n)
  }

  predicate PortsAre(w: World, snap: map<nat, Peer>) {
    w.ports == DesiredPorts(snap)
  }

  predicate Erased(w: World, ids: set<nat>) {
    forall n :: n in ids ==> n !in w.rows
  }

  predicate Activated(w: World, ids: set<nat>) {
    forall n :: n in ids && n in w.rows ==> w.rows[n].status == Active
  }

  /** How far `apply_wireguard` has come with its target. */
  predicate Partly(w: World, t: Thread, sub: Sub) {
    var n := t.target.id;
    && (sub.Configure? || sub.AddAddress? ==>
          n in w.ifaces && w.ifaces[n].mtu == Some(t.target.mtu) && w.ifaces[n].alias == Some(n))
    && (sub.AddAddress? ==> w.ifaces[n].wg == Some(WgConf(t.target.port, t.target.pubkey)))
  }

  predicate Advanced(w: World, t: Thread) {
    var up := AllUp(w, t.snap, WantedIds(t.snap));
    var ports := PortsAre(w, t.snap);
    match t.point
    case RvApplyNext => AllUp(w, t.snap, WantedIds(t.snap) - t.ids)
    case In(sub, RvApply) => AllUp(w, t.snap, WantedIds(t.snap) - t.ids - {t.target.id}) && Partly(w, t, sub)
    case In(_, RvNft) => up
    case RvSweep => up && ports && t.names !! WantedIds(t.snap)
    case RvEraseNext => up && ports && Erased(w, DeletingIds(t.snap) - t.ids)
    case RvActivateNext =>
      up && ports && Erased(w, DeletingIds(t.snap)) && Activated(w, WantedIds(t.snap) - t.ids)
    case _ => up && ports
  }

  ghost predicate Attempt(w: World, t: Thread, rows: map<nat, Peer>) {
    t.point.RvList? || (Between(rows, t.snap) && Between(t.snap, w.rows) && Advanced(w, t))
  }

  ghost predicate Repairing(s: State, rows: map<nat, Peer>) {
    && Inv(s) && Between(rows, s.w.rows)
    && (s.phase == Recovering ==> Attempt(s.w, s.threads[Recovery], rows))
  }

  /** The table is repaired and every external system shows it. */
  ghost predicate Repaired(w: World, rows: map<nat, Peer>) {
    && w.rows == Recovered(rows)
    && w.ifaces.Keys == WantedIds(rows)
    && (forall n :: n in w.ifaces ==> Configured(w.ifaces[n], w.rows[n]))
    && w.ports == DesiredPorts(rows)
    && w.current == Some(DesiredGeneration(w.localAsn, rows))
  }

  /** The same without the functions of the program: rows being deleted are gone and disabled ones as they
      were, every other row is active, and exactly those have an interface, a file and an open port. */
  ghost predicate PlainlyRepaired(w: World, rows: map<nat, Peer>) {
    && (forall n :: n in w.rows <==> n in rows && rows[n].status != Deleting)
    && (forall n :: n in w.rows ==>
          w.rows[n] == if rows[n].status == Disabled then rows[n] else rows[n].(status := Active))
    && (forall n :: n in w.ifaces <==> n in w.rows && w.rows[n].status == Active)
    && (forall n :: n in w.ifaces ==> Configured(w.ifaces[n], w.rows[n]))
    && w.current.Some? && ShowsRows(w.current.value, w.localAsn, w.rows) && OpensPorts(w.ports, w.rows)
  }

  lemma RepairedPlainly(w: World, rows: map<nat, Peer>)
    requires Repaired(w, rows)
    ensures PlainlyRepaired(w, rows)
  {
    forall n ensures RowBetween(rows, w.rows, n) {}
    SameGoal(w.localAsn, rows, w.rows);
    DesiredShowsRows(w.localAsn, w.rows);
    DesiredOpensPorts(w.rows);
  }

  // ---- steps of an attempt ----

  ghost predicate Goes(w: World, r: (Eff, Cont), rows: map<nat, Peer>) {
    && Between(rows, Apply(w, r.0).rows)
    && (r.1.Go? ==> Attempt(Apply(w, r.0), r.1.t, rows))
  }

  lemma ReadGoes(w: World, t: Thread, rows: map<nat, Peer>, out: Outcome)
    requires Between(rows, w.rows) && t.point.RvList?
    ensures Goes(w, RunRecover(w, t, out), rows)
  {
    assert Between(w.rows, w.rows) by {
      forall n ensures RowBetween(w.rows, w.rows, n) {}
    }
  }

  /** Configuring one interface leaves the others up. */
  lemma StillUp(w: World, snap: map<nat, Peer>, ids: set<nat>, eff: Eff)
    requires AllUp(w, snap, ids)
    requires (eff.SetIface? || eff.DropIface?) ==> eff.name !in ids
    ensures AllUp(Apply(w, eff), snap, ids)
  {
    forall n | n in ids ensures Up(Apply(w, eff), snap, n) {
      assert Up(w, snap, n);
    }
  }

  lemma ApplyGoes(w: World, t: Thread, sub: Sub, rows: map<nat, Peer>, out: Outcome)
    requires t.point == In(sub, RvApply) && Progress(w, t) && Attempt(w, t, rows) && Between(rows, w.rows)
    requires t.target.iface == t.target.id
    ensures Goes(w, RunLink(w, t, sub, RvApply, out), rows)
  {
    var (eff, k) := RunLink(w, t, sub, RvApply, out);
    assert Apply(w, eff).rows == w.rows;
    if k.Go? {
      ApplyAdvances(w, t, sub, out);
    }
  }

  lemma ApplyAdvances(w: World, t: Thread, sub: Sub, out: Outcome)
    requires t.point == In(sub, RvApply) && Progress(w, t) && Advanced(w, t)
    requires t.target.iface == t.target.id && RunLink(w, t, sub, RvApply, out).1.Go?
    ensures var (eff, k) := RunLink(w, t, sub, RvApply, out);
            k.t.snap == t.snap && !k.t.point.RvList? && Advanced(Apply(w, eff), k.t)
  {
    var (eff, k) := RunLink(w, t, sub, RvApply, out);
    var others := WantedIds(t.snap) - t.ids - {t.target.id};
    LinkKeeps(w, t, sub, out);
    StillUp(w, t.snap, others, eff);
    if k.t.point.RvApplyNext? { LastLink(w, t, out); }
  }

  /** A call for one interface touches no other and goes on with the same list. */
  lemma LinkKeeps(w: World, t: Thread, sub: Sub, out: Outcome)
    requires t.point == In(sub, RvApply) && t.target.iface == t.target.id && RunLink(w, t, sub, RvApply, out).1.Go?
    ensures var (eff, k) := RunLink(w, t, sub, RvApply, out);
            && k.t.snap == t.snap && k.t.ids == t.ids && k.t.target == t.target && !k.t.point.RvList?
            && (eff.SetIface? || eff.DropIface? ==> eff.name == t.target.id)
  {
  }

  lemma LastLink(w: World, t: Thread, out: Outcome)
    requires t.point.In? && t.point.site == RvApply && t.target.iface == t.target.id && t.target.id in t.snap
    requires t.target == t.snap[t.target.id] && Partly(w, t, t.point.sub)
    requires !BirdSub(t.point.sub) && !NftSub(t.point.sub) && !t.point.sub.DropLink?
    requires var (eff, k) := RunLink(w, t, t.point.sub, RvApply, out);
             k.Go? && k.t.point.RvApplyNext? && AllUp(Apply(w, eff), t.snap, WantedIds(t.snap) - t.ids - {t.target.id})
    ensures var (eff, k) := RunLink(w, t, t.point.sub, RvApply, out);
            AllUp(Apply(w, eff), t.snap, WantedIds(t.snap) - t.ids)
  {
    var (eff, k) := RunLink(w, t, t.point.sub, RvApply, out);
    var others := WantedIds(t.snap) - t.ids - {t.target.id};
    assert Up(Apply(w, eff), t.snap, t.target.id);
    assert forall n :: n in WantedIds(t.snap) - t.ids ==> n in others || n == t.target.id;
  }

  lemma PickGoes(w: World, t: Thread, rows: map<nat, Peer>, out: Outcome)
    requires t.point.RvApplyNext? && SnapInv(w, t.snap) && Progress(w, t) && Attempt(w, t, rows)
    requires Between(rows, w.rows)
    ensures Goes(w, RunRecover(w, t, out), rows)
  {
    if t.ids == {} {
      assert WantedIds(t.snap) - t.ids == WantedIds(t.snap);
    } else {
      var n := Pick(t.ids);
      PickedGoes(w, t, n);
    }
  }

  lemma PickedGoes(w: World, t: Thread, n: nat)
    requires n in t.ids && t.ids <= WantedIds(t.snap) && t.snap[n].id == n
    requires AllUp(w, t.snap, WantedIds(t.snap) - t.ids)
    ensures Advanced(w, t.(point := In(AddLink, RvApply), target := t.snap[n], ids := t.ids - {n}))
  {
    var t' := t.(point := In(AddLink, RvApply), target := t.snap[n], ids := t.ids - {n});
    assert WantedIds(t.snap) - t'.ids - {n} <= WantedIds(t.snap) - t.ids;
  }

  lemma NftGoes(w: World, t: Thread, sub: Sub, rows: map<nat, Peer>, out: Outcome)
    requires t.point == In(sub, RvNft) && NftSub(sub) && !sub.NftList? && t.task.RecoverTask?
    requires Attempt(w, t, rows) && Between(rows, w.rows)
    ensures Goes(w, RunNft(w, t, sub, RvNft, out), rows)
  {
    var (eff, k) := RunNft(w, t, sub, RvNft, out);
    StillUp(w, t.snap, WantedIds(t.snap), eff);
  }

  lemma BirdGoes(w: World, t: Thread, sub: Sub, rows: map<nat, Peer>, out: Outcome)
    requires t.point == In(sub, RvBird) && BirdSub(sub) && !sub.BirdList? && t.task.RecoverTask?
    requires Attempt(w, t, rows) && Between(rows, w.rows)
    ensures Goes(w, RunBird(w, t, sub, RvBird, out), rows)
  {
    var (eff, k) := RunBird(w, t, sub, RvBird, out);
    BirdMoves(w, t, sub, out);
    BirdLeaves(w, t, eff, k, rows);
  }

  lemma BirdLeaves(w: World, t: Thread, eff: Eff, k: Cont, rows: map<nat, Peer>)
    requires t.point.In? && t.point.site == RvBird && Attempt(w, t, rows) && Between(rows, w.rows)
    requires eff.Skip? || eff.SetCurrent?
    requires k.Go? ==> k.t.snap == t.snap && (k.t.point.RvDropNext? || (k.t.point.In? && k.t.point.site == RvBird))
    ensures Goes(w, (eff, k), rows)
  {
    StillUp(w, t.snap, WantedIds(t.snap), eff);
  }

  lemma BirdMoves(w: World, t: Thread, sub: Sub, out: Outcome)
    requires BirdSub(sub) && !sub.BirdList?
    ensures var (eff, k) := RunBird(w, t, sub, RvBird, out);
            && (eff.Skip? || eff.SetCurrent?)
            && (k.Go? ==> k.t.snap == t.snap && (k.t.point.RvDropNext? || (k.t.point.In? && k.t.point.site == RvBird)))
  {
  }

  /** Interfaces of wanted rows are never removed. */
  lemma DropGoes(w: World, t: Thread, rows: map<nat, Peer>, out: Outcome)
    requires t.point.RvDropNext? || t.point.RvScan? || t.point.RvListChanges?
    requires SnapInv(w, t.snap) && Progress(w, t) && Attempt(w, t, rows) && Between(rows, w.rows)
    ensures Goes(w, RunRecover(w, t, out), rows)
  {
    var (eff, k) := RunRecover(w, t, out);
    StillUp(w, t.snap, WantedIds(t.snap), eff);
    if t.point.RvScan? {
      assert forall n :: n in WantedIds(t.snap) ==> t.snap[n].iface == n && n in WantedIfaces(t.snap);
    }
  }

  lemma SweepGoes(w: World, t: Thread, rows: map<nat, Peer>, out: Outcome)
    requires t.point.RvSweep? && Attempt(w, t, rows) && Between(rows, w.rows)
    ensures Goes(w, RunRecover(w, t, out), rows)
  {
    var (eff, k) := RunRecover(w, t, out);
    StillUp(w, t.snap, WantedIds(t.snap), eff);
  }

  lemma PurgeGoes(w: World, t: Thread, rows: map<nat, Peer>, out: Outcome)
    requires t.point.RvPurge? && Attempt(w, t, rows) && Between(rows, w.rows)
    ensures Goes(w, RunRecover(w, t, out), rows)
  {
    var (eff, k) := RunRecover(w, t, out);
    forall n | n in WantedIds(t.snap) ensures n in w.rows {
      assert RowBetween(t.snap, w.rows, n);
    }
    StillUp(w, t.snap, WantedIds(t.snap), eff);
  }

  /** Erasing a row that is being deleted, or activating a wanted one, is progress towards the goal. */
  lemma WriteBetween(w: World, snap: map<nat, Peer>, eff: Eff)
    requires Between(snap, w.rows)
    requires (eff.EraseRow? && eff.id in DeletingIds(snap))
             || (eff.SetRow? && eff.p.id in WantedIds(snap) && eff.p.id in w.rows
                 && eff.p == w.rows[eff.p.id].(status := Active))
    ensures Between(snap, Apply(w, eff).rows)
  {
    forall n ensures RowBetween(snap, Apply(w, eff).rows, n) {
      assert RowBetween(snap, w.rows, n);
    }
  }

  lemma EraseGoes(w: World, t: Thread, rows: map<nat, Peer>, out: Outcome)
    requires t.point.RvEraseNext? && Progress(w, t) && Attempt(w, t, rows) && Between(rows, w.rows)
    ensures Goes(w, RunRecover(w, t, out), rows)
  {
    var (eff, k) := RunRecover(w, t, out);
    if eff.EraseRow? {
      WriteBetween(w, t.snap, eff);
      BetweenTransitive(rows, t.snap, Apply(w, eff).rows);
    }
    StillUp(w, t.snap, WantedIds(t.snap), eff);
    assert t.ids == {} ==> DeletingIds(t.snap) - t.ids == DeletingIds(t.snap);
  }

  lemma ActivateGoes(w: World, t: Thread, rows: map<nat, Peer>, out: Outcome)
    requires Ident(w)
    requires t.point.RvActivateNext? && Progress(w, t) && Attempt(w, t, rows) && Between(rows, w.rows)
    ensures Goes(w, RunRecover(w, t, out), rows)
  {
    var (eff, k) := RunRecover(w, t, out);
    if eff.SetRow? {
      WriteBetween(w, t.snap, eff);
      BetweenTransitive(rows, t.snap, Apply(w, eff).rows);
    }
    StillUp(w, t.snap, WantedIds(t.snap), eff);
  }

  lemma AttemptGoes(s: State, rows: map<nat, Peer>, out: Outcome)
    requires Repairing(s, rows) && Enabled(s, Run(Recovery, out))
    ensures Goes(s.w, Micro(s.w, s.threads[Recovery], out), rows)
  {
    var t := s.threads[Recovery];
    assert RecoveryInv(s, t) && Recovery in s.threads && s.phase == Recovering;
    if t.point.In? {
      CallGoes(s, t, t.point.sub, t.point.site, rows, out);
    } else {
      LoopGoes(s, t, rows, out);
    }
  }

  lemma LoopGoes(s: State, t: Thread, rows: map<nat, Peer>, out: Outcome)
    requires Ident(s.w) && RecoveryInv(s, t) && !t.point.In? && Attempt(s.w, t, rows) && Between(rows, s.w.rows)
    ensures Goes(s.w, RunRecover(s.w, t, out), rows)
  {
    if t.point.RvList? { ReadGoes(s.w, t, rows, out); }
    else if t.point.RvApplyNext? { PickGoes(s.w, t, rows, out); }
    else if t.point.RvSweep? { SweepGoes(s.w, t, rows, out); }
    else if t.point.RvPurge? { PurgeGoes(s.w, t, rows, out); }
    else if t.point.RvEraseNext? { EraseGoes(s.w, t, rows, out); }
    else if t.point.RvActivateNext? { ActivateGoes(s.w, t, rows, out); }
    else { DropGoes(s.w, t, rows, out); }
  }

  lemma CallGoes(s: State, t: Thread, sub: Sub, site: Site, rows: map<nat, Peer>, out: Outcome)
    requires RecoveryInv(s, t) && t.point == In(sub, site) && Attempt(s.w, t, rows) && Between(rows, s.w.rows)
    ensures Goes(s.w, RunSub(s.w, t, sub, site, out), rows)
  {
    match site {
      case RvApply =>
        assert PeerOk(s.w, t.snap[t.target.id], KeyOf(t.snap[t.target.id]));
        ApplyGoes(s.w, t, sub, rows, out);
      case RvNft => NftGoes(s.w, t, sub, rows, out);
      case RvBird => BirdGoes(s.w, t, sub, rows, out);
      case _ => assert false;
    }
  }

  // ---- the end of an attempt ----

  lemma RowsRecovered(w: World, t: Thread)
    requires t.point.RvActivateNext? && t.ids == {} && Between(t.snap, w.rows) && Advanced(w, t)
    ensures w.rows == Recovered(t.snap)
  {
    var goal := Recovered(t.snap);
    forall n ensures (n in w.rows <==> n in goal) && (n in w.rows ==> w.rows[n] == goal[n]) {
      assert RowBetween(t.snap, w.rows, n);
      assert n in t.snap && t.snap[n].status == Deleting ==> n in DeletingIds(t.snap);
      assert n in t.snap && Wanted(t.snap[n]) ==> n in WantedIds(t.snap);
    }
  }

  lemma EndsRepaired(s: State, rows: map<nat, Peer>, out: Outcome)
    requires Repairing(s, rows) && Enabled(s, Run(Recovery, out))
    requires Exec(s, Run(Recovery, out)).phase == Serving
    ensures Repaired(Exec(s, Run(Recovery, out)).w, rows)
  {
    var w, t := s.w, s.threads[Recovery];
    RecoveryProof.RecoveryStep(s, t, out);
    assert Exec(s, Run(Recovery, out)).w == w;
    RowsRecovered(w, t);
    SameGoal(w.localAsn, rows, t.snap);
    IfacesRecovered(w, t);
  }

  lemma IfacesRecovered(w: World, t: Thread)
    requires t.point.RvActivateNext? && t.ids == {} && Between(t.snap, w.rows) && Advanced(w, t)
    requires Progress(w, t) && w.rows == Recovered(t.snap)
    ensures w.ifaces.Keys == WantedIds(t.snap)
    ensures forall n :: n in w.ifaces ==> Configured(w.ifaces[n], w.rows[n])
  {
    forall n | n in w.ifaces ensures n in WantedIds(t.snap) && Configured(w.ifaces[n], w.rows[n]) {
      assert !Stray(w, t.snap, n);
      assert Up(w, t.snap, n);
    }
    assert forall n :: n in WantedIds(t.snap) ==> Up(w, t.snap, n);
  }

  // ---- runs of attempts ----

  /** Starting, running and interrupting recovery; foreign WireGuard devices may come and go. */
  predicate RepairStep(step: Step) {
    step.Boot? || step.Crash? || step.Reboot? || step.OutsideDevices? || (step.Run? && step.tid == Recovery)
  }

  lemma AttemptKept(s: State, rows: map<nat, Peer>, step: Step)
    requires Repairing(s, rows) && s.phase != Serving && Enabled(s, step) && RepairStep(step)
    ensures var s' := Exec(s, step);
            if s'.phase == Serving then Repaired(s'.w, rows) else Repairing(s', rows)
  {
    SystemProof.StepKept(s, step);
    if step.Run? {
      AttemptGoes(s, rows, step.out);
      if Exec(s, step).phase == Serving { EndsRepaired(s, rows, step.out); }
    } else {
      PauseKept(s, rows, step);
    }
  }

  lemma PauseKept(s: State, rows: map<nat, Peer>, step: Step)
    requires Repairing(s, rows) && s.phase != Serving && Enabled(s, step) && RepairStep(step) && !step.Run?
    requires Inv(Exec(s, step))
    ensures Exec(s, step).phase != Serving && Repairing(Exec(s, step), rows)
  {
    if step.OutsideDevices? && s.phase == Recovering {
      DevicesKept(s.w, s.threads[Recovery], rows, step.ports);
    }
  }

  lemma DevicesKept(w: World, t: Thread, rows: map<nat, Peer>, ports: set<nat>)
    requires Attempt(w, t, rows)
    ensures Attempt(Apply(w, SetDevices(ports)), t, rows)
  {
    if !t.point.RvList? {
      assert forall n :: Up(w, t.snap, n) ==> Up(Apply(w, SetDevices(ports)), t.snap, n);
    }
  }

  lemma {:induction false} RepairRun(states: seq<State>, steps: seq<Step>, i: nat)
    requires IsRun(states, steps) && i < |states| && Inv(states[0]) && states[0].phase == Down
    requires forall j :: 0 <= j < |steps| ==> RepairStep(steps[j])
    requires forall j :: 0 <= j < i ==> states[j].phase != Serving
    ensures if states[i].phase == Serving then Repaired(states[i].w, states[0].w.rows)
            else Repairing(states[i], states[0].w.rows)
  {
    if i == 0 {
      forall n ensures RowBetween(states[0].w.rows, states[0].w.rows, n) {}
    } else {
      RepairRun(states, steps, i - 1);
      AttemptKept(states[i - 1], states[0].w.rows, steps[i - 1]);
    }
  }

  /** Two recoveries of the same leftover state end alike, whatever interrupted them on the way. Only
      the outbox, and addresses left on interfaces by earlier configurations, may differ. */
  lemma InterruptionsDoNotMatter(states: seq<State>, steps: seq<Step>, i: nat,
                                 others: seq<State>, otherSteps: seq<Step>, j: nat)
    requires states != [] && others != [] && Leftover(states[0]) && others[0] == states[0]
    requires IsRun(states, steps) && i < |states| && forall k :: 0 <= k < |steps| ==> RepairStep(steps[k])
    requires IsRun(others, otherSteps) && j < |others| && forall k :: 0 <= k < |otherSteps| ==>
              RepairStep(otherSteps[k])
    requires states[i].phase == Serving && forall k :: 0 <= k < i ==> states[k].phase != Serving
    requires others[j].phase == Serving && forall k :: 0 <= k < j ==> others[k].phase != Serving
    ensures var rows := states[0].w.rows;
            && PlainlyRepaired(states[i].w, rows) && PlainlyRepaired(others[j].w, rows)
            && states[i].w.rows == others[j].w.rows && states[i].w.ports == others[j].w.ports
            && states[i].w.current == others[j].w.current && states[i].w.ifaces.Keys == others[j].w.ifaces.Keys
  {
    SystemProof.LeftoverInv(states[0]);
    RepairRun(states, steps, i);
    RepairRun(others, otherSteps, j);
    SameAsn(states, steps, i);
    SameAsn(others, otherSteps, j);
    RepairedPlainly(states[i].w, states[0].w.rows);
    RepairedPlainly(others[j].w, states[0].w.rows);
  }

  lemma {:induction false} SameAsn(states: seq<State>, steps: seq<Step>, i: nat)
    requires IsRun(states, steps) && i < |states|
    ensures states[i].w.localAsn == states[0].w.localAsn
  {
    if i > 0 {
      SameAsn(states, steps, i - 1);
      StepAsn(states[i - 1], steps[i - 1]);
    }
  }

  lemma StepAsn(s: State, step: Step)
    requires Enabled(s, step)
    ensures Exec(s, step).w.localAsn == s.w.localAsn
  {
    if step.Run? { RunAsn(s, step.tid, step.out); } else { OtherAsn(s, step); }
  }

  lemma RunAsn(s: State, tid: Tid, out: Outcome)
    requires Enabled(s, Run(tid, out))
    ensures Exec(s, Run(tid, out)).w.localAsn == s.w.localAsn
  {
    var (eff, k) := Micro(s.w, s.threads[tid], out);
    assert Exec(s, Run(tid, out)).w == Apply(s.w, eff);
  }

  lemma OtherAsn(s: State, step: Step)
    requires Enabled(s, step) && !step.Run?
    ensures Exec(s, step).w.localAsn == s.w.localAsn
  {
  }
}
