/** A request that runs while nothing else does. Its thread, call by call, ends with what the operation of
    Manager promises: the request is done if no call fails, and undone as stated if a single one does. */
module Alone {
  import opened Peers
  import opened World
  import opened Machine
  import opened Ports
  import opened Manager
  import opened Calls
  import Invariant
  import SystemProof

  /** Row p is stored; other rows and interfaces are as they were. */
  predicate WithRow(w0: World, w: World, p: Peer) {
    w.rows == w0.rows[p.id := p] && w.ifaces - {p.id} == w0.ifaces - {p.id} && w.localAsn == w0.localAsn
  }

  lemma RowWritten(w0: World, w: World, p: Peer, q: Peer)
    requires q.id == p.id && (w == w0 || WithRow(w0, w, p))
    ensures WithRow(w0, Apply(w, SetRow(Update, q)), q) && OutsideSame(w, Apply(w, SetRow(Update, q)))
  {
  }

  lemma CallKeepsRow(w0: World, w: World, w': World, p: Peer)
    requires WithRow(w0, w, p) && (OnlyExternal(w, w', p.id) || OnlyPorts(w, w'))
    ensures WithRow(w0, w', p)
  {
  }

  // ---- update ----

  /** The row the thread read, and the row the request asks for. */
  ghost predicate Chosen(w0: World, prior: Peer, c: Change) {
    && prior.id in w0.rows && w0.rows[prior.id] == prior && KeyOf(prior) == c.key && prior.status != Deleting
    && prior.iface == prior.id
  }

  ghost predicate Asked(w0: World, prior: Peer, c: Change, p: Peer) {
    Chosen(w0, prior, c) && AsChanged(p, w0.localAsn, prior, c) && p.status == Provisioning
  }

  /** Before, during and after the calls that bring up what is stored. */
  ghost predicate Applying(w0: World, w: World, t: Thread, faults: nat) {
    && WithRow(w0, w, t.target.(status := Provisioning))
    && (t.point.In? ==> Facts(w, t, t.point.sub, t.point.site, faults) && !NftSub(t.point.sub))
    && (!t.point.In? ==> Shaped(w, t.target) && w.current == AsksFor(w))
  }

  ghost predicate UpdateFacts(w0: World, w: World, t: Thread, c: Change, faults: nat) {
    && t.task == UpdateTask(c) && t.key == c.key
    && (t.point.WantPeer? || t.point.ReadOld? ==> w == w0)
    && (t.point.StoreDesired? ==> w == w0 && Asked(w0, t.prior, c, t.target))
    && (UpdatesTarget(t.point) ==> Asked(w0, t.prior, c, t.target) && Applying(w0, w, t, faults))
    && (t.point.CompStore? ==>
          faults > 0 && Asked(w0, t.prior, c, t.target) && WithRow(w0, w, t.target))
    && (RestoresPrior(t.point) ==>
          faults > 0 && Chosen(w0, t.prior, c) && t.target == t.prior && Applying(w0, w, t, faults - 1))
    && (t.point.WantPeer? || t.point.ReadOld? || t.point.StoreDesired? || UpdatesTarget(t.point)
        || t.point.CompStore? || RestoresPrior(t.point))
  }

  predicate UpdatesTarget(p: Point) {
    (p.In? && p.site == UpdateApply) || p.UpdateActivate?
  }

  predicate RestoresPrior(p: Point) {
    (p.In? && p.site == UpdateRestore) || p.CompActivate?
  }

  /** The peer of this name is as the request asks for, and everything shows it. */
  ghost predicate Updated(w0: World, w: World, c: Change, prior: Peer, p: Peer) {
    && Chosen(w0, prior, c) && AsChanged(p, w0.localAsn, prior, c) && p.status == Active
    && WithRow(w0, w, p) && Shaped(w, p) && w.current == AsksFor(w)
  }

  /** One failed call leaves nothing, the old configuration, the new row alone, or all but the last write. */
  ghost predicate UpdateHalted(w0: World, w: World, c: Change, prior: Peer, p: Peer) {
    && Chosen(w0, prior, c)
    && (RolledBack(w0, w, prior.id)
        || (AsChanged(p, w0.localAsn, prior, c) && (StoredOnly(w0, w, p) || AllButStatus(w0, w, p))))
  }

  ghost predicate UpdateEnded(w0: World, w: World, c: Change, faults: nat) {
    || (exists prior, p :: Updated(w0, w, c, prior, p))
    || (w == w0 && forall n :: n in w.rows && KeyOf(w.rows[n]) == c.key ==> w.rows[n].status == Deleting)
    || (faults > 0 && (w == w0 || exists prior, p :: UpdateHalted(w0, w, c, prior, p)))
  }

  ghost predicate UpdateGoes(w0: World, c: Change, faults: nat, w: World, r: (Eff, Cont)) {
    && (r.1.Go? ==> UpdateFacts(w0, Apply(w, r.0), r.1.t, c, faults))
    && (r.1.End? ==> UpdateEnded(w0, Apply(w, r.0), c, faults))
    && (r.1.Go? || r.1.End?)
  }

  lemma ReadOldStep(w: World, t: Thread, c: Change, faults: nat, out: Outcome)
    requires Good(w) && ValidTask(t.task) && UpdateFacts(w, w, t, c, faults) && t.point.ReadOld?
    ensures UpdateGoes(w, c, Count(faults, out), w, RunUpdate(w, t, out))
  {
    ReadOldOn(w, t, c, out);
  }

  lemma ReadOldOn(w: World, t: Thread, c: Change, out: Outcome)
    requires Good(w) && ValidTask(t.task) && t.task == UpdateTask(c) && t.key == c.key && t.point.ReadOld?
    ensures var (eff, k) := RunUpdate(w, t, out);
            && eff == Skip && (k.Go? || k.End?)
            && (k.Go? ==> k.t == t.(point := StoreDesired, prior := k.t.prior, target := k.t.target)
                          && Asked(w, k.t.prior, c, k.t.target))
            && (k.End? && out.Succeed? ==>
                  forall n :: n in w.rows && KeyOf(w.rows[n]) == c.key ==> w.rows[n].status == Deleting)
  {
    var row := FindByKey(w, t.key);
    if row.Some? { ChangedAsChanged(w.localAsn, row.value, c); }
  }

  lemma StoreEffect(w: World, t: Thread, out: Outcome)
    requires w.localAsn < U32 && ValidTask(t.task) && t.point.StoreDesired? && t.target.status == Provisioning
    requires t.target.id in w.rows && w.rows[t.target.id].id == t.target.id
    requires KeyOf(w.rows[t.target.id]) == KeyOf(t.target)
    requires !PortTaken(w, t.target.port, t.target.id)
    ensures RunUpdate(w, t, out)
         == (if out.Fail? then Skip else SetRow(Update, t.target),
             if out.Succeed? then Go(t.(point := In(AddLink, UpdateApply), mark := w.nextEvent)) else End)
  {
  }

  lemma StoreStep(w0: World, w: World, t: Thread, c: Change, faults: nat, out: Outcome)
    requires w.localAsn < U32 && ValidTask(t.task) && UpdateFacts(w0, w, t, c, faults) && t.point.StoreDesired?
    requires !PortTaken(w, t.target.port, t.target.id)
    ensures UpdateGoes(w0, c, Count(faults, out), w, RunUpdate(w, t, out))
  {
    StoreEffect(w, t, out);
    RowWritten(w0, w, t.target, t.target);
    if out.FailAfter? {
      assert UpdateHalted(w0, Apply(w, SetRow(Update, t.target)), c, t.prior, t.target);
    }
  }

  /** A call that brings up what is stored. */
  lemma ApplyingOn(w0: World, w: World, t: Thread, own: nat, out: Outcome, r: (Eff, Cont))
    requires Applying(w0, w, t, own) && t.point.In? && !RemoveSite(t.point.site)
    requires Proceeds(w, t, t.point.sub, t.point.site, own, out, r)
    ensures var w' := Apply(w, r.0);
            && WithRow(w0, w', t.target.(status := Provisioning))
            && (GoesOn(w', t, r.1, t.point.sub, t.point.site, Count(own, out)) ==>
                  Applying(w0, w', r.1.t, Count(own, out)))
  {
    CallKeepsRow(w0, w, Apply(w, r.0), t.target.(status := Provisioning));
  }

  lemma UpdateCall(w0: World, w: World, t: Thread, c: Change, faults: nat, out: Outcome, r: (Eff, Cont))
    requires UpdateFacts(w0, w, t, c, faults) && t.point.In? && t.point.site == UpdateApply
    requires Proceeds(w, t, t.point.sub, t.point.site, faults, out, r)
    ensures UpdateGoes(w0, c, Count(faults, out), w, r)
  {
    ApplyingOn(w0, w, t, faults, out, r);
  }

  lemma RestoreCall(w0: World, w: World, t: Thread, c: Change, faults: nat, out: Outcome, r: (Eff, Cont))
    requires UpdateFacts(w0, w, t, c, faults) && t.point.In? && t.point.site == UpdateRestore
    requires faults > 0 && Proceeds(w, t, t.point.sub, t.point.site, faults - 1, out, r) && Count(faults, out) <= 1
    ensures UpdateGoes(w0, c, Count(faults, out), w, r)
  {
    ApplyingOn(w0, w, t, faults - 1, out, r);
  }

  lemma UnstoreEffect(w: World, t: Thread, out: Outcome)
    requires w.localAsn < U32 && ValidTask(t.task) && t.point.CompStore? && out.Succeed?
    requires t.prior.id in w.rows && w.rows[t.prior.id].id == t.prior.id && KeyOf(w.rows[t.prior.id]) == KeyOf(t.prior)
    requires !PortTaken(w, t.prior.port, t.prior.id)
    ensures RunUpdate(w, t, out)
         == (SetRow(Update, t.prior.(status := Provisioning)),
             Go(t.(point := In(AddLink, UpdateRestore), target := t.prior)))
  {
  }

  lemma UnstoreStep(w0: World, w: World, t: Thread, c: Change, faults: nat, out: Outcome)
    requires w.localAsn < U32 && ValidTask(t.task) && UpdateFacts(w0, w, t, c, faults) && t.point.CompStore?
    requires !PortTaken(w, t.prior.port, t.prior.id) && Count(faults, out) <= 1
    ensures UpdateGoes(w0, c, Count(faults, out), w, RunUpdate(w, t, out))
  {
    UnstoreEffect(w, t, out);
    RowWritten(w0, w, t.target, t.prior.(status := Provisioning));
  }

  lemma UpdateLast(w0: World, w: World, t: Thread, c: Change, faults: nat, out: Outcome)
    requires w.localAsn < U32 && ValidTask(t.task) && UpdateFacts(w0, w, t, c, faults) && t.point.UpdateActivate?
    ensures UpdateGoes(w0, c, Count(faults, out), w, RunUpdate(w, t, out))
  {
    var p := t.target.(status := Active);
    ActivatedRow(w.localAsn, w.rows, p.id);
    RowWritten(w0, w, t.target, p);
    var w' := Apply(w, RunUpdate(w, t, out).0);
    if out.Succeed? {
      assert Updated(w0, w', c, t.prior, p);
    } else {
      assert UpdateHalted(w0, w', c, t.prior, t.target);
    }
  }

  lemma RestoreLast(w0: World, w: World, t: Thread, c: Change, faults: nat, out: Outcome)
    requires w.localAsn < U32 && ValidTask(t.task) && UpdateFacts(w0, w, t, c, faults) && t.point.CompActivate?
    requires Count(faults, out) <= 1
    ensures UpdateGoes(w0, c, Count(faults, out), w, RunUpdate(w, t, out))
  {
    var p := t.target.(status := Active);
    ActivatedRow(w.localAsn, w.rows, p.id);
    RowWritten(w0, w, t.target.(status := Provisioning), p);
    assert UpdateHalted(w0, Apply(w, RunUpdate(w, t, out).0), c, t.prior, p);
  }

  lemma UpdateStep(w0: World, w: World, t: Thread, c: Change, faults: nat, out: Outcome)
    requires Good(w) && ValidTask(t.task) && UpdateFacts(w0, w, t, c, faults) && Count(faults, out) <= 1
    ensures UpdateGoes(w0, c, Count(faults, out), w, Micro(w, t, out))
  {
    if t.point.In? {
      UpdateCallStep(w0, w, t, c, faults, out);
    } else if !t.point.WantPeer? {
      OwnUpdateStep(w0, w, t, c, faults, out);
      OwnMicro(w, t, out);
    }
  }

  /** Outside the shared procedures. */
  lemma OwnMicro(w: World, t: Thread, out: Outcome)
    requires w.localAsn < U32 && ValidTask(t.task) && !t.point.In? && !t.point.WantPeer?
    ensures t.task.CreateTask? ==> Micro(w, t, out) == RunCreate(w, t, out)
    ensures t.task.UpdateTask? ==> Micro(w, t, out) == RunUpdate(w, t, out)
    ensures t.task.DeleteTask? ==> Micro(w, t, out) == RunDelete(w, t, out)
  {
  }

  lemma UpdateCallStep(w0: World, w: World, t: Thread, c: Change, faults: nat, out: Outcome)
    requires Good(w) && ValidTask(t.task) && UpdateFacts(w0, w, t, c, faults) && Count(faults, out) <= 1 && t.point.In?
    ensures UpdateGoes(w0, c, Count(faults, out), w, Micro(w, t, out))
  {
    var own := if t.point.site == UpdateApply then faults else faults - 1;
    CallProceeds(w, t, t.point.sub, t.point.site, own, out);
    if t.point.site == UpdateApply {
      UpdateCall(w0, w, t, c, faults, out, Micro(w, t, out));
    } else {
      RestoreCall(w0, w, t, c, faults, out, Micro(w, t, out));
    }
  }

  lemma OwnUpdateStep(w0: World, w: World, t: Thread, c: Change, faults: nat, out: Outcome)
    requires Good(w) && ValidTask(t.task) && UpdateFacts(w0, w, t, c, faults) && Count(faults, out) <= 1
    requires !t.point.In? && !t.point.WantPeer?
    ensures UpdateGoes(w0, c, Count(faults, out), w, RunUpdate(w, t, out))
  {
    if t.point.StoreDesired? {
      OwnPort(w, t.target.id);
      StoreStep(w0, w, t, c, faults, out);
    } else if t.point.CompStore? {
      OwnPort(w, t.prior.id);
      UnstoreStep(w0, w, t, c, faults, out);
    } else if t.point.UpdateActivate? {
      UpdateLast(w0, w, t, c, faults, out);
    } else if t.point.CompActivate? {
      RestoreLast(w0, w, t, c, faults, out);
    } else {
      ReadOldStep(w, t, c, faults, out);
    }
  }

  // ---- delete ----

  ghost predicate Found(w0: World, key: Key, p: Peer) {
    p.id in w0.rows && w0.rows[p.id] == p && KeyOf(p) == key && p.iface == p.id
  }

  predicate CallAt(p: Point, site: Site) {
    p.In? && p.site == site
  }

  ghost predicate DeleteFacts(w0: World, w: World, t: Thread, key: Key, faults: nat) {
    && t.task == DeleteTask(key) && t.key == key
    && (t.point.WantPeer? || t.point.ReadVictim? ==> w == w0)
    && (!t.point.WantPeer? && !t.point.ReadVictim? ==> Found(w0, key, t.target))
    && (t.point.MarkDeleting? ==> w == w0)
    && (Closing(t.point) ==> ClosingFacts(w0, w, t, faults))
    && (Reopening(t.point) ==> faults > 0 && ReopeningFacts(w0, w, t, faults - 1))
    && (t.point.WantPeer? || t.point.ReadVictim? || t.point.MarkDeleting? || Closing(t.point) || Reopening(t.point))
  }

  /** On the way from the mark to the erasure. */
  predicate Closing(p: Point) {
    CallAt(p, DeleteNft) || CallAt(p, DeleteRemove) || p.Erase?
  }

  ghost predicate ClosingFacts(w0: World, w: World, t: Thread, faults: nat) {
    && WithRow(w0, w, t.target.(status := Deleting))
    && (t.point.In? ==>
          Facts(w, t, t.point.sub, t.point.site, faults) && NftSub(t.point.sub) == (t.point.site == DeleteNft))
    && (CallAt(t.point, DeleteNft) ==> w.ifaces == w0.ifaces && w.current == w0.current)
    && (!CallAt(t.point, DeleteNft) ==> w.ports == DesiredPorts(w.rows))
    && (t.point.Erase? ==> t.target.id !in w.ifaces && w.current == AsksFor(w))
  }

  /** On the way back. */
  predicate Reopening(p: Point) {
    p.UndeleteQuiet? || p.UndeleteReapply? || CallAt(p, DeleteReapply) || CallAt(p, DeleteRenft)
  }

  ghost predicate ReopeningFacts(w0: World, w: World, t: Thread, own: nat) {
    && WithRow(w0, w, t.target.(status := if t.point.In? then Active else Deleting))
    && (t.point.In? ==>
          Facts(w, t, t.point.sub, t.point.site, own) && NftSub(t.point.sub) == (t.point.site == DeleteRenft))
    && (t.point.UndeleteQuiet? ==> w.ifaces == w0.ifaces && w.current == w0.current)
    && (CallAt(t.point, DeleteRenft) ==> Shaped(w, t.target) && w.current == AsksFor(w))
  }

  /** The peer is gone everywhere. */
  ghost predicate Deleted(w0: World, w: World, key: Key, p: Peer) {
    && Found(w0, key, p) && w.rows == w0.rows - {p.id} && w.ifaces - {p.id} == w0.ifaces - {p.id}
    && p.id !in w.ifaces && w.current == AsksFor(w) && w.ports == DesiredPorts(w.rows)
  }

  ghost predicate DeleteEnded(w0: World, w: World, key: Key, faults: nat) {
    || (exists p :: Deleted(w0, w, key, p))
    || (w == w0 && (faults > 0 || !NameTaken(w, key)))
    || (faults > 0 && RefusedDeleteOf(w0, w, key))
  }

  ghost predicate DeleteGoes(w0: World, key: Key, faults: nat, w: World, r: (Eff, Cont)) {
    && (r.1.Go? ==> DeleteFacts(w0, Apply(w, r.0), r.1.t, key, faults))
    && (r.1.End? ==> DeleteEnded(w0, Apply(w, r.0), key, faults))
    && (r.1.Go? || r.1.End?)
  }

  lemma VictimStep(w: World, t: Thread, key: Key, faults: nat, out: Outcome)
    requires Good(w) && DeleteFacts(w, w, t, key, faults) && t.point.ReadVictim?
    ensures DeleteGoes(w, key, Count(faults, out), w, RunDelete(w, t, out))
  {
  }

  lemma Marks(w0: World, w: World, t: Thread, key: Key, faults: nat, out: Outcome)
    requires DeleteFacts(w0, w, t, key, faults) && t.point.MarkDeleting?
    ensures DeleteGoes(w0, key, Count(faults, out), w, RunDelete(w, t, out))
  {
    RowWritten(w0, w, t.target, t.target.(status := Deleting));
    if out.FailAfter? {
      assert MarkedOnly(w0, Apply(w, RunDelete(w, t, out).0), t.target.id);
    }
  }

  lemma CloseCall(w0: World, w: World, t: Thread, key: Key, faults: nat, out: Outcome, r: (Eff, Cont))
    requires DeleteFacts(w0, w, t, key, faults) && CallAt(t.point, DeleteNft)
    requires Proceeds(w, t, t.point.sub, DeleteNft, faults, out, r)
    ensures DeleteGoes(w0, key, Count(faults, out), w, r)
  {
    CloseOn(w0, w, t, faults, out, r);
  }

  lemma CloseOn(w0: World, w: World, t: Thread, faults: nat, out: Outcome, r: (Eff, Cont))
    requires ClosingFacts(w0, w, t, faults) && CallAt(t.point, DeleteNft)
    requires Proceeds(w, t, t.point.sub, DeleteNft, faults, out, r)
    ensures var (w', k, f) := (Apply(w, r.0), r.1, Count(faults, out));
            && k.Go? && k.t == t.(point := k.t.point, snap := k.t.snap)
            && (if Closing(k.t.point) then ClosingFacts(w0, w', k.t, f)
                else k.t.point.UndeleteQuiet? && f > 0 && ReopeningFacts(w0, w', k.t, f - 1))
  {
    CallKeepsRow(w0, w, Apply(w, r.0), t.target.(status := Deleting));
    if r.1 == Return(t, DeleteNft, true) {
      assert r.1 == Go(t.(point := In(BirdList, DeleteRemove)));
    } else if r.1 == Return(t, DeleteNft, false) {
      assert r.1 == Go(t.(point := UndeleteQuiet));
    }
  }

  lemma RemovalCall(w0: World, w: World, t: Thread, key: Key, faults: nat, out: Outcome, r: (Eff, Cont))
    requires DeleteFacts(w0, w, t, key, faults) && CallAt(t.point, DeleteRemove)
    requires Proceeds(w, t, t.point.sub, DeleteRemove, faults, out, r)
    ensures DeleteGoes(w0, key, Count(faults, out), w, r)
  {
    RemovalOn(w0, w, t, faults, out, r);
  }

  lemma RemovalOn(w0: World, w: World, t: Thread, faults: nat, out: Outcome, r: (Eff, Cont))
    requires ClosingFacts(w0, w, t, faults) && CallAt(t.point, DeleteRemove)
    requires Proceeds(w, t, t.point.sub, DeleteRemove, faults, out, r)
    ensures var (w', k, f) := (Apply(w, r.0), r.1, Count(faults, out));
            && k.Go? && k.t == t.(point := k.t.point, snap := k.t.snap)
            && (if Closing(k.t.point) then ClosingFacts(w0, w', k.t, f)
                else k.t.point.UndeleteReapply? && f > 0 && ReopeningFacts(w0, w', k.t, f - 1))
  {
    CallKeepsRow(w0, w, Apply(w, r.0), t.target.(status := Deleting));
    if r.1 == Return(t, DeleteRemove, true) {
      assert r.1 == Go(t.(point := Erase));
    } else if r.1 == Return(t, DeleteRemove, false) {
      assert r.1 == Go(t.(point := UndeleteReapply));
    }
  }

  lemma ReapplyCall(w0: World, w: World, t: Thread, key: Key, faults: nat, out: Outcome, r: (Eff, Cont))
    requires DeleteFacts(w0, w, t, key, faults) && CallAt(t.point, DeleteReapply) && Count(faults, out) <= 1
    requires Proceeds(w, t, t.point.sub, DeleteReapply, faults - 1, out, r)
    ensures DeleteGoes(w0, key, Count(faults, out), w, r)
  {
    var w' := Apply(w, r.0);
    CallKeepsRow(w0, w, w', t.target.(status := Active));
    if r.1 == Return(t, DeleteReapply, true) {
      assert r.1 == Go(t.(point := In(NftList, DeleteRenft)));
    }
    assert ReopeningFacts(w0, w', r.1.t, Count(faults, out) - 1);
  }

  lemma RenftCall(w0: World, w: World, t: Thread, key: Key, faults: nat, out: Outcome, r: (Eff, Cont))
    requires DeleteFacts(w0, w, t, key, faults) && CallAt(t.point, DeleteRenft) && Count(faults, out) <= 1
    requires Proceeds(w, t, t.point.sub, DeleteRenft, faults - 1, out, r)
    ensures DeleteGoes(w0, key, Count(faults, out), w, r)
  {
    CallKeepsRow(w0, w, Apply(w, r.0), t.target.(status := Active));
    if r.1.End? {
      assert TakenBack(w0, Apply(w, r.0), t.target.id);
    }
  }

  lemma DeleteCalls(w0: World, w: World, t: Thread, key: Key, faults: nat, out: Outcome, r: (Eff, Cont))
    requires DeleteFacts(w0, w, t, key, faults) && t.point.In? && Count(faults, out) <= 1
    requires Proceeds(w, t, t.point.sub, t.point.site, if Closing(t.point) then faults else faults - 1, out, r)
    ensures DeleteGoes(w0, key, Count(faults, out), w, r)
  {
    match t.point.site {
      case DeleteNft => CloseCall(w0, w, t, key, faults, out, r);
      case DeleteRemove => RemovalCall(w0, w, t, key, faults, out, r);
      case DeleteReapply => ReapplyCall(w0, w, t, key, faults, out, r);
      case DeleteRenft => RenftCall(w0, w, t, key, faults, out, r);
    }
  }

  lemma EraseLast(w0: World, w: World, t: Thread, key: Key, faults: nat, out: Outcome)
    requires DeleteFacts(w0, w, t, key, faults) && t.point.Erase?
    ensures DeleteGoes(w0, key, Count(faults, out), w, RunDelete(w, t, out))
  {
    var n := t.target.id;
    HiddenRow(w.localAsn, w.rows, w.rows - {n}, n);
    assert w.rows - {n} == w0.rows - {n};
    var w' := Apply(w, RunDelete(w, t, out).0);
    if out.Succeed? {
      assert Deleted(w0, w', key, t.target);
    } else {
      assert AllButErased(w0, w', n);
    }
  }

  lemma UnmarksQuietly(w0: World, w: World, t: Thread, key: Key, faults: nat, out: Outcome)
    requires DeleteFacts(w0, w, t, key, faults) && t.point.UndeleteQuiet? && Count(faults, out) <= 1
    ensures DeleteGoes(w0, key, Count(faults, out), w, RunDelete(w, t, out))
  {
    RowWritten(w0, w, t.target.(status := Deleting), t.target.(status := Active));
    assert TakenBack(w0, Apply(w, RunDelete(w, t, out).0), t.target.id);
  }

  lemma Unmarks(w0: World, w: World, t: Thread, key: Key, faults: nat, out: Outcome)
    requires DeleteFacts(w0, w, t, key, faults) && t.point.UndeleteReapply? && Count(faults, out) <= 1
    ensures DeleteGoes(w0, key, Count(faults, out), w, RunDelete(w, t, out))
  {
    RowWritten(w0, w, t.target.(status := Deleting), t.target.(status := Active));
  }

  lemma DeleteStep(w0: World, w: World, t: Thread, key: Key, faults: nat, out: Outcome)
    requires Good(w) && DeleteFacts(w0, w, t, key, faults) && Count(faults, out) <= 1
    ensures DeleteGoes(w0, key, Count(faults, out), w, Micro(w, t, out))
  {
    if t.point.In? {
      var own := if Closing(t.point) then faults else faults - 1;
      CallProceeds(w, t, t.point.sub, t.point.site, own, out);
      DeleteCalls(w0, w, t, key, faults, out, Micro(w, t, out));
    } else if t.point.ReadVictim? {
      VictimStep(w, t, key, faults, out);
    } else if t.point.MarkDeleting? {
      Marks(w0, w, t, key, faults, out);
    } else if t.point.Erase? {
      EraseLast(w0, w, t, key, faults, out);
    } else if t.point.UndeleteQuiet? {
      UnmarksQuietly(w0, w, t, key, faults, out);
    } else if !t.point.WantPeer? {
      Unmarks(w0, w, t, key, faults, out);
    }
  }

  // ---- create ----

  predicate Numbered(w0: World, w: World, r: Request) {
    w == Apply(w0, Issue(r.key)) && w0.nextId < U32 && !NameTaken(w0, r.key)
  }

  /** The first k ports in the order of the scan are busy. */
  predicate BusyBefore(w0: World, asn: nat, k: nat) {
    forall j: nat :: j < k ==> Busy(w0, CandidatePort(asn, j))
  }

  predicate FirstFree(w0: World, asn: nat, k: nat) {
    k < PORT_COUNT && BusyBefore(w0, asn, k) && !Busy(w0, CandidatePort(asn, k))
  }

  /** The row the request reserves, with the port at hand. */
  ghost predicate Drafted(w0: World, p: Peer, r: Request) {
    r.key.asn < U32 && w0.localAsn < U32 && p == NewPeer(w0.localAsn, w0.nextId, r, p.port)
  }

  /** The port is the first free one. */
  ghost predicate Reserving(w0: World, p: Peer, r: Request) {
    && Drafted(w0, p, r) && r.key.asn != w0.localAsn && p.id !in w0.rows && p.id !in w0.ifaces
    && exists k :: FirstFree(w0, r.key.asn, k) && p.port == CandidatePort(r.key.asn, k)
  }

  predicate Scanning(p: Point) {
    p.Probe? || p.Reserve? || p.Recheck?
  }

  predicate SettingUp(p: Point) {
    (p.In? && (p.site == CreateApply || p.site == CreateNft)) || p.CreateActivate?
  }

  predicate Withdrawing(p: Point) {
    p.CompMark? || (p.In? && (p.site == CompRemove || p.site == CompNft)) || p.CompErase?
  }

  ghost predicate CreateFacts(w0: World, w: World, t: Thread, r: Request, faults: nat) {
    && t.task == CreateTask(r) && t.key == r.key
    && (t.point.WantPeer? || t.point.CheckName? ==> w == w0)
    && (t.point.WantPort? || t.point.TakeId? ==> w == w0 && !NameTaken(w0, r.key))
    && (Scanning(t.point) ==> Numbered(w0, w, r) && Drafted(w0, t.target, r) && ScanFacts(w0, t, r.key.asn))
    && (SettingUp(t.point) ==> Reserving(w0, t.target, r) && SetUpFacts(w0, w, t, faults))
    && (Withdrawing(t.point) ==> Reserving(w0, t.target, r) && faults > 0 && WithdrawFacts(w0, w, t, faults - 1))
    && (t.point.WantPeer? || t.point.CheckName? || t.point.WantPort? || t.point.TakeId? || Scanning(t.point)
        || SettingUp(t.point) || Withdrawing(t.point))
  }

  predicate ScanFacts(w0: World, t: Thread, asn: nat) {
    match t.point
    case Probe(k) => k <= PORT_COUNT && BusyBefore(w0, asn, k)
    case Reserve(k) =>
      && k < PORT_COUNT && BusyBefore(w0, asn, k) && t.target.port == CandidatePort(asn, k)
      && !PortInUse(w0, CandidatePort(asn, k))
    case Recheck(k) => k < PORT_COUNT && BusyBefore(w0, asn, k + 1)
    case _ => true
  }

  ghost predicate SetUpFacts(w0: World, w: World, t: Thread, faults: nat) {
    && WithRow(w0, w, t.target)
    && (t.point.In? ==>
          Facts(w, t, t.point.sub, t.point.site, faults) && NftSub(t.point.sub) == (t.point.site == CreateNft))
    && (!CallAt(t.point, CreateApply) ==> Shaped(w, t.target) && w.current == AsksFor(w))
    && (t.point.CreateActivate? ==> w.ports == DesiredPorts(w.rows))
  }

  ghost predicate WithdrawFacts(w0: World, w: World, t: Thread, own: nat) {
    var n := t.target.id;
    && (t.point.CompMark? ==> WithRow(w0, w, t.target) || WithRow(w0, w, t.target.(status := Active)))
    && (CallAt(t.point, CompRemove) || t.point.CompErase? ==> WithRow(w0, w, t.target.(status := Deleting)))
    && (t.point.In? ==>
          Facts(w, t, t.point.sub, t.point.site, own) && NftSub(t.point.sub) == (t.point.site == CompNft))
    && (t.point.CompErase? || CallAt(t.point, CompNft) ==> n !in w.ifaces && w.current == AsksFor(w))
    && (CallAt(t.point, CompNft) ==> w.rows == w0.rows && w.ifaces - {n} == w0.ifaces - {n})
  }

  /** The peer is new, as requested, on the first free port, and everything shows it. */
  ghost predicate Created(w0: World, w: World, r: Request, p: Peer, k: nat) {
    && Added(w0, w, p) && AsRequested(p, w0.localAsn, r) && p.id == w0.nextId && p.status == Active
    && FirstFree(w0, r.key.asn, k) && p.port == CandidatePort(r.key.asn, k)
  }

  /** The id was taken, and the request refused, or tested only. */
  ghost predicate OnlyIssued(w0: World, w: World, r: Request) {
    && w == Apply(w0, Issue(r.key))
    && (w0.nextId >= U32 || BusyBefore(w0, r.key.asn, PORT_COUNT)
        || (r.key.asn == w0.localAsn && exists k :: FirstFree(w0, r.key.asn, k)))
  }

  ghost predicate CreateUndone(w0: World, w: World, r: Request) {
    || (w.rows == w0.rows && w.ifaces == w0.ifaces && (OutsideSame(w0, w) || Shows(w)))
    || exists port :: LostInsert(w0, w, r, port)
  }

  ghost predicate CreateEnded(w0: World, w: World, r: Request, faults: nat) {
    || (exists p, k :: Created(w0, w, r, p, k))
    || (w == w0 && NameTaken(w, r.key))
    || OnlyIssued(w0, w, r)
    || (faults > 0 && CreateUndone(w0, w, r))
  }

  ghost predicate CreateGoes(w0: World, r: Request, faults: nat, w: World, res: (Eff, Cont)) {
    && (res.1.Go? ==> CreateFacts(w0, Apply(w, res.0), res.1.t, r, faults))
    && (res.1.End? ==> CreateEnded(w0, Apply(w, res.0), r, faults))
    && (res.1.Go? || res.1.End?)
  }

  lemma TakeIdStep(w: World, t: Thread, r: Request, faults: nat, out: Outcome)
    requires Good(w) && ValidTask(t.task) && CreateFacts(w, w, t, r, faults) && t.point.TakeId?
    ensures CreateGoes(w, r, Count(faults, out), w, RunCreate(w, t, out))
  {
  }

  lemma ProbeStep(w0: World, w: World, t: Thread, r: Request, faults: nat, out: Outcome)
    requires w.localAsn < U32 && ValidTask(t.task) && CreateFacts(w0, w, t, r, faults) && t.point.Probe?
    ensures CreateGoes(w0, r, Count(faults, out), w, RunCreate(w, t, out))
  {
    ProbeOn(w0, w, t, r, out);
    Scanned(w0, w, t, r, faults, out, RunCreate(w, t, out));
  }

  lemma Scanned(w0: World, w: World, t: Thread, r: Request, faults: nat, out: Outcome, res: (Eff, Cont))
    requires CreateFacts(w0, w, t, r, faults) && Scanning(t.point) && res.0 == Skip && (res.1.Go? || res.1.End?)
    requires res.1.Go? ==>
               && res.1.t == t.(point := res.1.t.point, target := res.1.t.target) && Scanning(res.1.t.point)
               && Drafted(w0, res.1.t.target, r) && ScanFacts(w0, res.1.t, r.key.asn)
    requires res.1.End? ==> !out.Succeed? || BusyBefore(w0, r.key.asn, PORT_COUNT)
    ensures CreateGoes(w0, r, Count(faults, out), w, res)
  {
  }

  lemma ProbeOn(w0: World, w: World, t: Thread, r: Request, out: Outcome)
    requires w.localAsn < U32 && t.task == CreateTask(r) && t.key == r.key && t.point.Probe?
    requires Numbered(w0, w, r) && Drafted(w0, t.target, r) && ScanFacts(w0, t, r.key.asn)
    ensures var (eff, k) := RunCreate(w, t, out);
            && eff == Skip && (k.Go? || k.End?)
            && (k.Go? ==> k.t == t.(point := k.t.point, target := k.t.target)
                          && (k.t.point.Probe? || k.t.point.Reserve?)
                          && Drafted(w0, k.t.target, r) && ScanFacts(w0, k.t, r.key.asn))
            && (k.End? ==> !out.Succeed? || BusyBefore(w0, r.key.asn, PORT_COUNT))
  {
  }

  /** Whether the row fits the table only depends on its port. */
  lemma Fits(w0: World, w: World, p: Peer, r: Request)
    requires Good(w0) && Numbered(w0, w, r) && Drafted(w0, p, r) && !PortInUse(w0, p.port)
    ensures Conflict(w, p) <==> Busy(w0, p.port)
    ensures p.id !in w0.rows && p.id !in w0.ifaces
  {
  }

  lemma TakenStep(w0: World, w: World, t: Thread, r: Request, faults: nat, out: Outcome)
    requires w.localAsn < U32 && ValidTask(t.task) && CreateFacts(w0, w, t, r, faults) && t.point.Reserve?
    requires Conflict(w, t.target) && Busy(w0, t.target.port)
    ensures CreateGoes(w0, r, Count(faults, out), w, RunCreate(w, t, out))
  {
  }

  lemma FreeStep(w0: World, w: World, t: Thread, r: Request, faults: nat, out: Outcome)
    requires w.localAsn < U32 && ValidTask(t.task) && CreateFacts(w0, w, t, r, faults) && t.point.Reserve?
    requires !Conflict(w, t.target) && !Busy(w0, t.target.port) && t.target.id !in w0.rows && t.target.id !in w0.ifaces
    ensures CreateGoes(w0, r, Count(faults, out), w, RunCreate(w, t, out))
  {
    assert FirstFree(w0, r.key.asn, t.point.increment);
    if r.key.asn != w0.localAsn {
      assert Reserving(w0, t.target, r);
      InsertStep(w0, w, t, r, faults, out);
    }
  }

  lemma InsertStep(w0: World, w: World, t: Thread, r: Request, faults: nat, out: Outcome)
    requires w.localAsn < U32 && ValidTask(t.task) && CreateFacts(w0, w, t, r, faults) && t.point.Reserve?
    requires !Conflict(w, t.target) && Reserving(w0, t.target, r)
    ensures CreateGoes(w0, r, Count(faults, out), w, RunCreate(w, t, out))
  {
    if out.FailAfter? {
      assert LostInsert(w0, Apply(w, SetRow(Insert, t.target)), r, t.target.port);
    } else if out.Succeed? {
      Inserted(w0, w, t, r, faults);
    }
  }

  lemma Inserted(w0: World, w: World, t: Thread, r: Request, faults: nat)
    requires Numbered(w0, w, r) && Reserving(w0, t.target, r) && t.task == CreateTask(r) && t.key == r.key
    ensures CreateFacts(w0, Apply(w, SetRow(Insert, t.target)),
                        t.(point := In(AddLink, CreateApply), mark := w.nextEvent), r, faults)
  {
  }

  lemma ReserveStep(w0: World, w: World, t: Thread, r: Request, faults: nat, out: Outcome)
    requires Good(w0) && w.localAsn < U32 && ValidTask(t.task) && CreateFacts(w0, w, t, r, faults) && t.point.Reserve?
    ensures CreateGoes(w0, r, Count(faults, out), w, RunCreate(w, t, out))
  {
    Fits(w0, w, t.target, r);
    if Conflict(w, t.target) {
      TakenStep(w0, w, t, r, faults, out);
    } else {
      FreeStep(w0, w, t, r, faults, out);
    }
  }

  lemma RecheckStep(w0: World, w: World, t: Thread, r: Request, faults: nat, out: Outcome)
    requires Good(w0) && w.localAsn < U32 && ValidTask(t.task) && CreateFacts(w0, w, t, r, faults) && t.point.Recheck?
    ensures CreateGoes(w0, r, Count(faults, out), w, RunCreate(w, t, out))
  {
  }

  lemma SetUpCall(w0: World, w: World, t: Thread, r: Request, faults: nat, out: Outcome, res: (Eff, Cont))
    requires CreateFacts(w0, w, t, r, faults) && CallAt(t.point, CreateApply)
    requires Proceeds(w, t, t.point.sub, CreateApply, faults, out, res)
    ensures CreateGoes(w0, r, Count(faults, out), w, res)
  {
    SetUpOn(w0, w, t, faults, out, res);
  }

  lemma SetUpOn(w0: World, w: World, t: Thread, faults: nat, out: Outcome, res: (Eff, Cont))
    requires SetUpFacts(w0, w, t, faults) && CallAt(t.point, CreateApply)
    requires Proceeds(w, t, t.point.sub, CreateApply, faults, out, res)
    ensures var (w', k, f) := (Apply(w, res.0), res.1, Count(faults, out));
            && k.Go? && k.t == t.(point := k.t.point, snap := k.t.snap)
            && (SettingUp(k.t.point) ==> SetUpFacts(w0, w', k.t, f))
            && (Withdrawing(k.t.point) ==> f > 0 && WithdrawFacts(w0, w', k.t, f - 1))
            && (SettingUp(k.t.point) || Withdrawing(k.t.point))
            && !(SettingUp(k.t.point) && Withdrawing(k.t.point))
  {
    var w' := Apply(w, res.0);
    CallKeepsRow(w0, w, w', t.target);
    if res.1 == Return(t, CreateApply, true) {
      assert res.1 == Go(t.(point := In(NftList, CreateNft)));
    } else if res.1 == Return(t, CreateApply, false) {
      assert res.1 == Go(t.(point := CompMark));
    }
  }

  lemma OpenCall(w0: World, w: World, t: Thread, r: Request, faults: nat, out: Outcome, res: (Eff, Cont))
    requires CreateFacts(w0, w, t, r, faults) && CallAt(t.point, CreateNft)
    requires Proceeds(w, t, t.point.sub, CreateNft, faults, out, res)
    ensures CreateGoes(w0, r, Count(faults, out), w, res)
  {
    OpenOn(w0, w, t, faults, out, res);
  }

  lemma OpenOn(w0: World, w: World, t: Thread, faults: nat, out: Outcome, res: (Eff, Cont))
    requires SetUpFacts(w0, w, t, faults) && CallAt(t.point, CreateNft)
    requires Proceeds(w, t, t.point.sub, CreateNft, faults, out, res)
    ensures var (w', k, f) := (Apply(w, res.0), res.1, Count(faults, out));
            && k.Go? && k.t == t.(point := k.t.point, snap := k.t.snap)
            && (if SettingUp(k.t.point) then SetUpFacts(w0, w', k.t, f)
                else k.t.point.CompMark? && f > 0 && WithdrawFacts(w0, w', k.t, f - 1))
  {
    CallKeepsRow(w0, w, Apply(w, res.0), t.target);
    if res.1 == Return(t, CreateNft, true) {
      assert res.1 == Go(t.(point := CreateActivate));
    } else if res.1 == Return(t, CreateNft, false) {
      assert res.1 == Go(t.(point := CompMark));
    }
  }

  lemma WithdrawCall(w0: World, w: World, t: Thread, r: Request, faults: nat, out: Outcome, res: (Eff, Cont))
    requires CreateFacts(w0, w, t, r, faults) && CallAt(t.point, CompRemove) && Count(faults, out) <= 1
    requires Proceeds(w, t, t.point.sub, CompRemove, faults - 1, out, res)
    ensures CreateGoes(w0, r, Count(faults, out), w, res)
  {
    CallKeepsRow(w0, w, Apply(w, res.0), t.target.(status := Deleting));
  }

  lemma ShutCall(w0: World, w: World, t: Thread, r: Request, faults: nat, out: Outcome, res: (Eff, Cont))
    requires CreateFacts(w0, w, t, r, faults) && CallAt(t.point, CompNft) && Count(faults, out) <= 1
    requires Proceeds(w, t, t.point.sub, CompNft, faults - 1, out, res)
    ensures CreateGoes(w0, r, Count(faults, out), w, res)
  {
    var n := t.target.id;
    assert w.ifaces == w.ifaces - {n} && w0.ifaces == w0.ifaces - {n};
  }

  lemma CreateLast(w0: World, w: World, t: Thread, r: Request, faults: nat, out: Outcome)
    requires w.localAsn < U32 && ValidTask(t.task) && CreateFacts(w0, w, t, r, faults) && t.point.CreateActivate?
    ensures CreateGoes(w0, r, Count(faults, out), w, RunCreate(w, t, out))
  {
    var p := t.target.(status := Active);
    RowWritten(w0, w, t.target, p);
    if out.Succeed? {
      CreateDone(w0, w, t, r, faults);
    }
  }

  lemma CreateDone(w0: World, w: World, t: Thread, r: Request, faults: nat)
    requires CreateFacts(w0, w, t, r, faults) && t.point.CreateActivate?
    ensures var p := t.target.(status := Active);
            exists k :: Created(w0, Apply(w, SetRow(Update, p)), r, p, k)
  {
    var p := t.target.(status := Active);
    ActivatedRow(w.localAsn, w.rows, p.id);
    NewAsRequested(w0.localAsn, w0.nextId, r, t.target.port);
    var k :| FirstFree(w0, r.key.asn, k) && p.port == CandidatePort(r.key.asn, k);
    RowWritten(w0, w, t.target, p);
    assert Created(w0, Apply(w, SetRow(Update, p)), r, p, k);
  }

  lemma MarkStep(w0: World, w: World, t: Thread, r: Request, faults: nat, out: Outcome)
    requires w.localAsn < U32 && ValidTask(t.task) && CreateFacts(w0, w, t, r, faults) && t.point.CompMark?
    requires Count(faults, out) <= 1
    ensures CreateGoes(w0, r, Count(faults, out), w, RunCreate(w, t, out))
  {
    MarkOn(w0, w, t, out);
    Withdraws(w0, w, t, r, faults, RunCreate(w, t, out), In(BirdList, CompRemove));
  }

  lemma Withdraws(w0: World, w: World, t: Thread, r: Request, faults: nat, res: (Eff, Cont), next: Point)
    requires CreateFacts(w0, w, t, r, faults) && Withdrawing(t.point) && Withdrawing(next) && faults > 0
    requires res.1 == Go(t.(point := next)) && WithdrawFacts(w0, Apply(w, res.0), res.1.t, faults - 1)
    ensures CreateGoes(w0, r, faults, w, res)
  {
  }

  lemma MarkOn(w0: World, w: World, t: Thread, out: Outcome)
    requires w.localAsn < U32 && ValidTask(t.task) && t.point.CompMark? && WithdrawFacts(w0, w, t, 0) && out.Succeed?
    requires t.target.iface == t.target.id && CreateRequest(t).key.asn < U32
    ensures var (eff, k) := RunCreate(w, t, out);
            && k == Go(t.(point := In(BirdList, CompRemove)))
            && WithdrawFacts(w0, Apply(w, eff), k.t, 0)
  {
    var q := t.target.(status := Deleting);
    assert RunCreate(w, t, out).0 == SetRow(Update, q);
    RowWritten(w0, w, w.rows[q.id], q);
  }

  lemma CompEraseStep(w0: World, w: World, t: Thread, r: Request, faults: nat, out: Outcome)
    requires w.localAsn < U32 && ValidTask(t.task) && CreateFacts(w0, w, t, r, faults) && t.point.CompErase?
    requires Count(faults, out) <= 1
    ensures CreateGoes(w0, r, Count(faults, out), w, RunCreate(w, t, out))
  {
    CompEraseOn(w0, w, t, out);
    Withdraws(w0, w, t, r, faults, RunCreate(w, t, out), In(NftList, CompNft));
  }

  lemma CompEraseOn(w0: World, w: World, t: Thread, out: Outcome)
    requires w.localAsn < U32 && ValidTask(t.task) && t.point.CompErase? && WithdrawFacts(w0, w, t, 0) && out.Succeed?
    requires t.target.id !in w0.rows && t.target.iface == t.target.id && CreateRequest(t).key.asn < U32
    ensures var (eff, k) := RunCreate(w, t, out);
            && k == Go(t.(point := In(NftList, CompNft)))
            && WithdrawFacts(w0, Apply(w, eff), k.t, 0)
  {
    assert RunCreate(w, t, out).0 == EraseRow(t.target.id);
    CompErased(w0, w, t.target);
  }

  lemma CompErased(w0: World, w: World, p: Peer)
    requires p.id !in w0.rows && WithRow(w0, w, p.(status := Deleting)) && w.current == AsksFor(w)
    ensures var w' := Apply(w, EraseRow(p.id));
            w'.rows == w0.rows && w'.current == AsksFor(w') && w'.ifaces == w.ifaces
  {
    HiddenRow(w.localAsn, w.rows, w.rows - {p.id}, p.id);
    assert w.rows - {p.id} == w0.rows;
  }

  lemma CreateCalls(w0: World, w: World, t: Thread, r: Request, faults: nat, out: Outcome, res: (Eff, Cont))
    requires CreateFacts(w0, w, t, r, faults) && t.point.In? && Count(faults, out) <= 1
    requires Proceeds(w, t, t.point.sub, t.point.site, if SettingUp(t.point) then faults else faults - 1, out, res)
    ensures CreateGoes(w0, r, Count(faults, out), w, res)
  {
    match t.point.site {
      case CreateApply => SetUpCall(w0, w, t, r, faults, out, res);
      case CreateNft => OpenCall(w0, w, t, r, faults, out, res);
      case CompRemove => WithdrawCall(w0, w, t, r, faults, out, res);
      case CompNft => ShutCall(w0, w, t, r, faults, out, res);
    }
  }

  lemma ScanStep(w0: World, w: World, t: Thread, r: Request, faults: nat, out: Outcome)
    requires Good(w0) && Good(w) && ValidTask(t.task) && CreateFacts(w0, w, t, r, faults)
    requires t.point.CheckName? || t.point.WantPort? || t.point.TakeId? || Scanning(t.point)
    ensures CreateGoes(w0, r, Count(faults, out), w, RunCreate(w, t, out))
  {
    if t.point.TakeId? {
      TakeIdStep(w, t, r, faults, out);
    } else if t.point.Probe? {
      ProbeStep(w0, w, t, r, faults, out);
    } else if t.point.Reserve? {
      ReserveStep(w0, w, t, r, faults, out);
    } else if t.point.Recheck? {
      RecheckStep(w0, w, t, r, faults, out);
    } else {
      NameStep(w, t, r, faults, out);
    }
  }

  lemma NameStep(w: World, t: Thread, r: Request, faults: nat, out: Outcome)
    requires w.localAsn < U32 && ValidTask(t.task) && CreateFacts(w, w, t, r, faults)
    requires t.point.CheckName? || t.point.WantPort?
    ensures CreateGoes(w, r, Count(faults, out), w, RunCreate(w, t, out))
  {
  }

  lemma CreateStep(w0: World, w: World, t: Thread, r: Request, faults: nat, out: Outcome)
    requires Good(w0) && Good(w) && ValidTask(t.task) && CreateFacts(w0, w, t, r, faults) && Count(faults, out) <= 1
    ensures CreateGoes(w0, r, Count(faults, out), w, Micro(w, t, out))
  {
    if t.point.In? {
      CreateCallStep(w0, w, t, r, faults, out);
    } else if t.point.CreateActivate? {
      CreateLast(w0, w, t, r, faults, out);
    } else if t.point.CompMark? {
      MarkStep(w0, w, t, r, faults, out);
    } else if t.point.CompErase? {
      CompEraseStep(w0, w, t, r, faults, out);
    } else if !t.point.WantPeer? {
      ScanStep(w0, w, t, r, faults, out);
    }
  }

  lemma CreateCallStep(w0: World, w: World, t: Thread, r: Request, faults: nat, out: Outcome)
    requires Good(w) && ValidTask(t.task) && CreateFacts(w0, w, t, r, faults) && Count(faults, out) <= 1 && t.point.In?
    ensures CreateGoes(w0, r, Count(faults, out), w, Micro(w, t, out))
  {
    CallProceeds(w, t, t.point.sub, t.point.site, if SettingUp(t.point) then faults else faults - 1, out);
    CreateCalls(w0, w, t, r, faults, out, Micro(w, t, out));
  }

  // ---- whole runs ----

  /** How many of the first i calls reported an error. */
  function Faults(steps: seq<Step>, i: nat): nat
    requires i <= |steps|
  {
    if i == 0 then 0
    else if steps[i - 1].Run? then Count(Faults(steps, i - 1), steps[i - 1].out)
    else Faults(steps, i - 1)
  }

  /** The request has arrived at a serving process and nothing else is in flight; only its thread runs. */
  ghost predicate AloneRun(states: seq<State>, steps: seq<Step>, n: nat, task: Task) {
    && IsRun(states, steps) && Invariant.Inv(states[0]) && ApiTask(task) && ValidTask(task)
    && states[0].threads == map[Api(n) := NewThread(task, WantPeer)]
    && forall i :: 0 <= i < |steps| ==> steps[i].Run?
  }

  ghost predicate Going(w0: World, w: World, t: Thread, task: Task, faults: nat) {
    match task
    case CreateTask(r) => CreateFacts(w0, w, t, r, faults)
    case UpdateTask(c) => UpdateFacts(w0, w, t, c, faults)
    case DeleteTask(key) => DeleteFacts(w0, w, t, key, faults)
    case _ => false
  }

  ghost predicate Ended(w0: World, w: World, task: Task, faults: nat) {
    match task
    case CreateTask(r) => CreateEnded(w0, w, r, faults)
    case UpdateTask(c) => UpdateEnded(w0, w, c, faults)
    case DeleteTask(key) => DeleteEnded(w0, w, key, faults)
    case _ => false
  }

  ghost predicate Where(w0: World, s: State, n: nat, task: Task, faults: nat) {
    if s.threads == map[] then Ended(w0, s.w, task, faults)
    else s.threads.Keys == {Api(n)} && Going(w0, s.w, s.threads[Api(n)], task, faults)
  }

  lemma AloneStep(w0: World, s: State, n: nat, task: Task, faults: nat, step: Step)
    requires Good(w0) && Good(s.w) && ValidTask(task) && Where(w0, s, n, task, faults)
    requires step.Run? && Enabled(s, step) && Count(faults, step.out) <= 1
    ensures Where(w0, Exec(s, step), n, task, Count(faults, step.out))
  {
    var t := s.threads[Api(n)];
    match task {
      case CreateTask(r) => CreateStep(w0, s.w, t, r, faults, step.out);
      case UpdateTask(c) => UpdateStep(w0, s.w, t, c, faults, step.out);
      case DeleteTask(key) => DeleteStep(w0, s.w, t, key, faults, step.out);
    }
    Continued(s, Api(n), step.out);
  }

  lemma Continued(s: State, tid: Tid, out: Outcome)
    requires s.threads.Keys == {tid} && Enabled(s, Run(tid, out))
    requires !Micro(s.w, s.threads[tid], out).1.Die? && !Micro(s.w, s.threads[tid], out).1.Ready?
    ensures var (eff, k) := Micro(s.w, s.threads[tid], out);
            var s' := Exec(s, Run(tid, out));
            && s'.w == Apply(s.w, eff)
            && (k.End? ==> s'.threads == map[]) && (k.Go? ==> s'.threads == map[tid := k.t])
  {
  }

  lemma {:induction false} InvStays(states: seq<State>, steps: seq<Step>, i: nat)
    requires IsRun(states, steps) && Invariant.Inv(states[0]) && i < |states|
    ensures Invariant.Inv(states[i])
  {
    if i > 0 {
      InvStays(states, steps, i - 1);
      SystemProof.StepKept(states[i - 1], steps[i - 1]);
    }
  }

  lemma {:induction false} AloneWhere(states: seq<State>, steps: seq<Step>, i: nat, n: nat, task: Task)
    requires AloneRun(states, steps, n, task) && i < |states| && Faults(steps, i) <= 1
    ensures Where(states[0].w, states[i], n, task, Faults(steps, i))
  {
    if i == 0 {
      AloneStart(states[0], n, task);
    } else {
      AloneWhere(states, steps, i - 1, n, task);
      InvStays(states, steps, i - 1);
      AloneStep(states[0].w, states[i - 1], n, task, Faults(steps, i - 1), steps[i - 1]);
    }
  }

  lemma AloneStart(s: State, n: nat, task: Task)
    requires ApiTask(task) && s.threads == map[Api(n) := NewThread(task, WantPeer)]
    ensures Where(s.w, s, n, task, 0)
  {
    assert Api(n) in s.threads;
  }

  /** An update alone: without a failed call the peer is as requested, or there is none to update; a single
      failed call leaves nothing, the old configuration, the new row alone, or all but the last write. */
  lemma UpdateAlone(states: seq<State>, steps: seq<Step>, i: nat, n: nat, c: Change)
    requires AloneRun(states, steps, n, UpdateTask(c)) && i < |states| && states[i].threads == map[]
    ensures var w0, w := states[0].w, states[i].w;
            && (Faults(steps, i) == 0 ==>
                  (exists prior, p :: Updated(w0, w, c, prior, p))
                  || (w == w0 && forall m :: m in w.rows && KeyOf(w.rows[m]) == c.key ==> w.rows[m].status == Deleting))
            && (Faults(steps, i) == 1 ==>
                  w == w0 || exists prior, p :: Updated(w0, w, c, prior, p) || UpdateHalted(w0, w, c, prior, p))
  {
    if Faults(steps, i) <= 1 { AloneWhere(states, steps, i, n, UpdateTask(c)); }
  }

  /** A deletion alone: the peer is gone everywhere, or there was none; a single failed call leaves what a
      refused deletion of Manager leaves. */
  lemma DeleteAlone(states: seq<State>, steps: seq<Step>, i: nat, n: nat, key: Key)
    requires AloneRun(states, steps, n, DeleteTask(key)) && i < |states| && states[i].threads == map[]
    ensures var w0, w := states[0].w, states[i].w;
            && (Faults(steps, i) == 0 ==> (exists p :: Deleted(w0, w, key, p)) || (w == w0 && !NameTaken(w, key)))
            && (Faults(steps, i) == 1 ==>
                  w == w0 || RefusedDeleteOf(w0, w, key) || exists p :: Deleted(w0, w, key, p))
  {
    if Faults(steps, i) <= 1 { AloneWhere(states, steps, i, n, DeleteTask(key)); }
  }

  /** A creation alone: the peer is there on the first free port, or the name is taken, or no port is free, or
      no id, or it was a test; a single failed call leaves nothing but a row whose insertion was not answered. */
  lemma CreateAlone(states: seq<State>, steps: seq<Step>, i: nat, n: nat, r: Request)
    requires AloneRun(states, steps, n, CreateTask(r)) && i < |states| && states[i].threads == map[]
    ensures var w0, w := states[0].w, states[i].w;
            && (Faults(steps, i) == 0 ==>
                  || (exists p, k :: Created(w0, w, r, p, k))
                  || (w == w0 && NameTaken(w, r.key))
                  || (w == Apply(w0, Issue(r.key))
                      && (w0.nextId >= U32 || r.key.asn == w0.localAsn
                          || forall port :: 20_000 <= port < 30_000 ==> Busy(w0, port))))
            && (Faults(steps, i) == 1 ==>
                  || CreateUndone(w0, w, r) || exists p, k :: Created(w0, w, r, p, k))
  {
    var w0, w := states[0].w, states[i].w;
    if Faults(steps, i) <= 1 {
      AloneWhere(states, steps, i, n, CreateTask(r));
      if OnlyIssued(w0, w, r) && BusyBefore(w0, r.key.asn, PORT_COUNT) { AllCandidatesBusy(w0, r.key.asn); }
    }
  }
}
