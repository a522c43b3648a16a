/** A pass of the reconciler that runs while nothing else does: its thread applies and drops every listed event but
    those in whose turn a call failed, as the loop of Manager does. */
module Passes {
  import opened Peers
  import opened World
  import opened Machine
  import opened Manager
  import opened Calls
  import opened Alone
  import Invariant
  import SystemProof

  predicate Applies(p: Point) {
    CallAt(p, ChangeApply) || p.ChangeActivate?
  }

  predicate Removes(p: Point) {
    CallAt(p, ChangeRemove) || p.ChangeErase?
  }

  /** The row of the event's peer has been followed; events and ports are still to come. */
  ghost predicate Followed(w1: World, w: World, n: nat, e: nat)
    requires e in w1.outbox
  {
    && OnlyPeer(w1, w, n) && w.rows == ProcessedRows(w1.rows, n) && Settled(w, n) && BirdSettled(w)
    && w.outbox.Keys == w1.outbox.Keys + if Quiet(w1.rows, n) then {} else {w1.nextEvent}
  }

  /** In the turn that started in w1. */
  ghost predicate TurnFacts(w1: World, w: World, t: Thread, faults: nat) {
    var n := t.target.id;
    && t.task.ReconcileTask? && t.mark in w1.outbox && w1.outbox[t.mark].peer.id == n
    && (t.point.WantPeer? || t.point.ReadById? ==> w == w1 && t.target == w1.outbox[t.mark].peer && !t.found)
    && (Applies(t.point) ==>
          && OnlyExternal(w1, w, n) && t.found && n in w1.rows && t.target == w1.rows[n] && Wanted(t.target)
          && (t.point.ChangeActivate? ==> t.target.status != Active && Shaped(w, t.target) && w.current == AsksFor(w)))
    && (Removes(t.point) ==>
          && OnlyExternal(w1, w, n) && t.found == (n in w1.rows)
          && (t.found ==> t.target == w1.rows[n] && !Wanted(t.target))
          && (t.point.ChangeErase? ==>
                t.found && t.target.status == Deleting && n !in w.ifaces && w.current == AsksFor(w)))
    && (CallAt(t.point, ChangeNft) ==> Followed(w1, w, n, t.mark))
    && (t.point.DropChange? ==> Applied(w1, w, t.mark))
    && (t.point.In? ==>
          Facts(w, t, t.point.sub, t.point.site, faults) && NftSub(t.point.sub) == (t.point.site == ChangeNft))
    && (t.point.WantPeer? || t.point.ReadById? || Applies(t.point) || Removes(t.point) || CallAt(t.point, ChangeNft)
        || t.point.DropChange?)
  }

  /** What a turn leaves. */
  ghost predicate TurnEnds(w1: World, w: World, e: nat, faults: nat)
    requires e in w1.outbox
  {
    Around(w1, w, e) && (faults == 0 ==> Processed(w1, w, e) && Work(w) < Work(w1))
  }

  ghost predicate TurnGoes(w1: World, t: Thread, faults: nat, w: World, r: (Eff, Cont))
    requires t.mark in w1.outbox
  {
    && r.1.Go? && r.1.t.task == t.task && r.1.t.events == t.events && r.1.t.mark == t.mark
    && (if r.1.t.point.NextChange? then TurnEnds(w1, Apply(w, r.0), t.mark, faults)
        else TurnFacts(w1, Apply(w, r.0), r.1.t, faults))
  }

  lemma ReadStep(w: World, t: Thread, faults: nat, out: Outcome)
    requires Good(w) && TurnFacts(w, w, t, faults) && t.point.ReadById?
    ensures TurnGoes(w, t, Count(faults, out), w, RunReconcile(w, t, out))
  {
    var n := t.target.id;
    if !out.Succeed? {
      GivenUp(w, w, t, Count(faults, out));
    } else if n in w.rows {
      assert w.rows[n].id == n && w.rows[n].iface == n;
      RowRead(w, t, faults, w.rows[n]);
    } else {
      NoRowRead(w, t, faults);
    }
  }

  lemma RowRead(w: World, t: Thread, faults: nat, row: Peer)
    requires TurnFacts(w, w, t, faults) && t.point.ReadById? && t.target.id in w.rows && row == w.rows[t.target.id]
    requires row.id == t.target.id && row.iface == row.id
    ensures TurnGoes(w, t, faults, w, RunReconcile(w, t, Succeed))
  {
  }

  lemma NoRowRead(w: World, t: Thread, faults: nat)
    requires TurnFacts(w, w, t, faults) && t.point.ReadById? && t.target.id !in w.rows && t.target.iface == t.target.id
    ensures TurnGoes(w, t, faults, w, RunReconcile(w, t, Succeed))
  {
  }

  /** A turn that is given up because a call failed. */
  lemma GivenUp(w1: World, w: World, t: Thread, faults: nat)
    requires t.mark in w1.outbox && OnlyPeer(w1, w, w1.outbox[t.mark].peer.id) && faults > 0
    ensures TurnEnds(w1, w, t.mark, faults)
  {
    OnlyPeerAround(w1, w, t.mark);
  }

  lemma ApplyCall(w1: World, w: World, t: Thread, faults: nat, out: Outcome, r: (Eff, Cont))
    requires TurnFacts(w1, w, t, faults) && CallAt(t.point, ChangeApply)
    requires Proceeds(w, t, t.point.sub, ChangeApply, faults, out, r)
    ensures TurnGoes(w1, t, Count(faults, out), w, r)
  {
    var w', n := Apply(w, r.0), t.target.id;
    assert OnlyExternal(w1, w', n);
    if r.1 == Return(t, ChangeApply, false) {
      assert r.1 == Go(t.(point := NextChange));
      ExternalOnlyPeer(w1, w', n);
      GivenUp(w1, w', t, Count(faults, out));
    } else if r.1 == Return(t, ChangeApply, true) {
      AppliedOn(w1, w', t, Count(faults, out));
    }
  }

  /** After the calls for a wanted row. */
  lemma AppliedOn(w1: World, w: World, t: Thread, faults: nat)
    requires t.task.ReconcileTask? && t.mark in w1.outbox && w1.outbox[t.mark].peer.id == t.target.id
    requires OnlyExternal(w1, w, t.target.id) && t.found && t.target.id in w1.rows && t.target == w1.rows[t.target.id]
    requires Wanted(t.target) && t.target.iface == t.target.id && Shaped(w, t.target) && w.current == AsksFor(w)
    ensures var k := Return(t, ChangeApply, true);
            && k.Go? && k.t == t.(point := k.t.point) && !k.t.point.NextChange?
            && TurnFacts(w1, w, k.t, faults)
  {
    if t.target.status == Active {
      ActiveFollowed(w1, w, t.target.id, t.mark);
      StatusFollowed(w1, w, t, faults);
    }
  }

  lemma ActiveFollowed(w1: World, w: World, n: nat, e: nat)
    requires OnlyExternal(w1, w, n) && n in w1.rows && w1.rows[n].status == Active && e in w1.outbox
    requires Shaped(w, w1.rows[n]) && w1.rows[n].id == n && w.current == AsksFor(w)
    ensures Followed(w1, w, n, e)
  {
    ExternalOnlyPeer(w1, w, n);
    assert w1.rows[n := w1.rows[n].(status := Active)] == w1.rows;
  }

  lemma RemoveCall(w1: World, w: World, t: Thread, faults: nat, out: Outcome, r: (Eff, Cont))
    requires TurnFacts(w1, w, t, faults) && CallAt(t.point, ChangeRemove)
    requires Proceeds(w, t, t.point.sub, ChangeRemove, faults, out, r)
    ensures TurnGoes(w1, t, Count(faults, out), w, r)
  {
    var w', n := Apply(w, r.0), t.target.id;
    assert OnlyExternal(w1, w', n);
    if r.1 == Return(t, ChangeRemove, false) {
      assert r.1 == Go(t.(point := NextChange));
      ExternalOnlyPeer(w1, w', n);
      GivenUp(w1, w', t, Count(faults, out));
    } else if r.1 == Return(t, ChangeRemove, true) {
      RemovedOn(w1, w', t, Count(faults, out));
    }
  }

  /** After the calls for a row that is not wanted, or for none. */
  lemma RemovedOn(w1: World, w: World, t: Thread, faults: nat)
    requires t.task.ReconcileTask? && t.mark in w1.outbox && w1.outbox[t.mark].peer.id == t.target.id
    requires OnlyExternal(w1, w, t.target.id) && t.found == (t.target.id in w1.rows) && t.target.iface == t.target.id
    requires t.found ==> t.target == w1.rows[t.target.id] && !Wanted(t.target)
    requires t.target.id !in w.ifaces && w.current == AsksFor(w)
    ensures var k := Return(t, ChangeRemove, true);
            && k.Go? && k.t == t.(point := k.t.point) && !k.t.point.NextChange?
            && TurnFacts(w1, w, k.t, faults)
  {
    if !t.found || t.target.status != Deleting {
      ExternalOnlyPeer(w1, w, t.target.id);
      StatusFollowed(w1, w, t, faults);
    }
  }

  lemma FollowedOn(w1: World, w: World, w': World, n: nat, e: nat)
    requires e in w1.outbox && w1.outbox[e].peer.id == n && Followed(w1, w, n, e) && OnlyPorts(w, w')
    ensures Followed(w1, w', n, e) && (w'.ports == DesiredPorts(w'.rows) ==> Applied(w1, w', e))
  {
    ExternalOnlyPeer(w, w', n);
    OnlyPeerChain(w1, w, w', n);
  }

  lemma DropReady(w1: World, w: World, t: Thread, faults: nat)
    requires t.task.ReconcileTask? && t.mark in w1.outbox && w1.outbox[t.mark].peer.id == t.target.id
    requires Applied(w1, w, t.mark)
    ensures TurnFacts(w1, w, t.(point := DropChange), faults)
  {
  }

  lemma NftGoesOn(w1: World, w: World, t: Thread, sub: Sub, k: Cont, faults: nat)
    requires t.task.ReconcileTask? && t.mark in w1.outbox && w1.outbox[t.mark].peer.id == t.target.id && NftSub(sub)
    requires Followed(w1, w, t.target.id, t.mark) && GoesOn(w, t, k, sub, ChangeNft, faults)
    ensures TurnFacts(w1, w, k.t, faults)
  {
  }

  lemma NftCall(w1: World, w: World, t: Thread, faults: nat, out: Outcome, r: (Eff, Cont))
    requires TurnFacts(w1, w, t, faults) && CallAt(t.point, ChangeNft)
    requires Proceeds(w, t, t.point.sub, ChangeNft, faults, out, r)
    ensures TurnGoes(w1, t, Count(faults, out), w, r)
  {
    FollowedOn(w1, w, Apply(w, r.0), t.target.id, t.mark);
    NftOn(w1, Apply(w, r.0), t, t.point.sub, Count(faults, out), r.1);
  }

  lemma NftOn(w1: World, w: World, t: Thread, sub: Sub, faults: nat, k: Cont)
    requires t.task.ReconcileTask? && t.mark in w1.outbox && w1.outbox[t.mark].peer.id == t.target.id && NftSub(sub)
    requires Followed(w1, w, t.target.id, t.mark)
    requires || GoesOn(w, t, k, sub, ChangeNft, faults)
             || (k == Return(t, ChangeNft, true) && Applied(w1, w, t.mark))
             || (k == Return(t, ChangeNft, false) && faults > 0)
    ensures k.Go? && k.t.task == t.task && k.t.events == t.events && k.t.mark == t.mark
    ensures if k.t.point.NextChange? then TurnEnds(w1, w, t.mark, faults) else TurnFacts(w1, w, k.t, faults)
  {
    if GoesOn(w, t, k, sub, ChangeNft, faults) {
      NftGoesOn(w1, w, t, sub, k, faults);
    } else if k == Return(t, ChangeNft, false) {
      assert k == Go(t.(point := NextChange));
      GivenUp(w1, w, t, faults);
    } else {
      assert k == Go(t.(point := DropChange));
      DropReady(w1, w, t, faults);
    }
  }

  lemma ActivateFollowed(w1: World, w: World, n: nat, e: nat)
    requires Good(w) && OnlyExternal(w1, w, n) && n in w1.rows && Wanted(w1.rows[n]) && w1.rows[n].status != Active
    requires e in w1.outbox && Shaped(w, w1.rows[n]) && w.current == AsksFor(w)
    ensures Followed(w1, Apply(w, SetRow(Update, w.rows[n].(status := Active))), n, e)
  {
    ExternalOnlyPeer(w1, w, n);
    WriteOnlyPeer(w, SetRow(Update, w.rows[n].(status := Active)), n);
    OnlyPeerChain(w1, w, Apply(w, SetRow(Update, w.rows[n].(status := Active))), n);
    ActivatedRow(w.localAsn, w.rows, n);
  }

  lemma EraseFollowed(w1: World, w: World, n: nat, e: nat)
    requires Good(w) && OnlyExternal(w1, w, n) && n in w1.rows && w1.rows[n].status == Deleting
    requires e in w1.outbox && n !in w.ifaces && w.current == AsksFor(w)
    ensures Followed(w1, Apply(w, EraseRow(n)), n, e)
  {
    ExternalOnlyPeer(w1, w, n);
    WriteOnlyPeer(w, EraseRow(n), n);
    OnlyPeerChain(w1, w, Apply(w, EraseRow(n)), n);
    HiddenRow(w.localAsn, w.rows, w.rows - {n}, n);
  }

  /** A status write or an erasure that reported an error ends the turn. */
  lemma WriteGivenUp(w1: World, w: World, t: Thread, eff: Eff, faults: nat)
    requires Good(w) && t.mark in w1.outbox && w1.outbox[t.mark].peer.id == t.target.id && faults > 0
    requires OnlyExternal(w1, w, t.target.id)
    requires eff.Skip? || (eff.SetRow? && eff.p.id == t.target.id) || (eff.EraseRow? && eff.id == t.target.id)
    ensures TurnEnds(w1, Apply(w, eff), t.mark, faults)
  {
    ExternalOnlyPeer(w1, w, t.target.id);
    WriteOnlyPeer(w, eff, t.target.id);
    OnlyPeerChain(w1, w, Apply(w, eff), t.target.id);
    GivenUp(w1, Apply(w, eff), t, faults);
  }

  lemma ActivateStep(w1: World, w: World, t: Thread, faults: nat, out: Outcome)
    requires Good(w) && t.task.ReconcileTask? && t.mark in w1.outbox && w1.outbox[t.mark].peer.id == t.target.id
    requires OnlyExternal(w1, w, t.target.id) && t.target.id in w1.rows && t.target == w1.rows[t.target.id]
    requires Wanted(t.target) && t.target.status != Active && Shaped(w, t.target) && w.current == AsksFor(w)
    requires t.point.ChangeActivate? && t.target.iface == t.target.id
    ensures TurnGoes(w1, t, Count(faults, out), w, RunReconcile(w, t, out))
  {
    var eff := if out.Fail? then Skip else SetRow(Update, w.rows[t.target.id].(status := Active));
    if out.Succeed? {
      ActivateFollowed(w1, w, t.target.id, t.mark);
      StatusFollowed(w1, Apply(w, eff), t, faults);
    } else {
      WriteGivenUp(w1, w, t, eff, Count(faults, out));
    }
    StatusWritten(w1, w, t, faults, out, eff);
  }

  lemma StatusWritten(w1: World, w: World, t: Thread, faults: nat, out: Outcome, eff: Eff)
    requires t.task.ReconcileTask? && t.mark in w1.outbox && t.point.ChangeActivate? && t.target.id in w.rows
    requires eff == if out.Fail? then Skip else SetRow(Update, w.rows[t.target.id].(status := Active))
    requires if out.Succeed? then TurnFacts(w1, Apply(w, eff), t.(point := In(NftList, ChangeNft)), faults)
             else TurnEnds(w1, Apply(w, eff), t.mark, Count(faults, out))
    ensures TurnGoes(w1, t, Count(faults, out), w, RunReconcile(w, t, out))
  {
  }

  lemma StatusFollowed(w1: World, w: World, t: Thread, faults: nat)
    requires t.task.ReconcileTask? && t.mark in w1.outbox && w1.outbox[t.mark].peer.id == t.target.id
    requires Followed(w1, w, t.target.id, t.mark) && t.target.iface == t.target.id
    ensures TurnFacts(w1, w, t.(point := In(NftList, ChangeNft)), faults)
  {
  }

  lemma EraseStep(w1: World, w: World, t: Thread, faults: nat, out: Outcome)
    requires Good(w) && TurnFacts(w1, w, t, faults) && t.point.ChangeErase? && t.target.iface == t.target.id
    ensures TurnGoes(w1, t, Count(faults, out), w, RunReconcile(w, t, out))
  {
    var n := t.target.id;
    var eff := if out.Fail? then Skip else EraseRow(n);
    assert RunReconcile(w, t, out).0 == eff;
    if out.Succeed? {
      EraseFollowed(w1, w, n, t.mark);
      StatusFollowed(w1, Apply(w, eff), t, faults);
    } else {
      WriteGivenUp(w1, w, t, eff, Count(faults, out));
    }
  }

  lemma DropEnds(w1: World, w: World, e: nat, faults: nat, out: Outcome)
    requires Ident(w1) && e in w1.outbox && Applied(w1, w, e)
    ensures TurnEnds(w1, if out.Fail? then w else Apply(w, DropEvent(e)), e, Count(faults, out))
  {
    OnlyPeerAround(w1, w, e);
    ProcessedAround(w1, w, e);
    ProcessedWork(w1, w, e);
  }

  lemma DropStep(w1: World, w: World, t: Thread, faults: nat, out: Outcome)
    requires t.task.ReconcileTask? && t.mark in w1.outbox && t.point.DropChange?
    requires TurnEnds(w1, if out.Fail? then w else Apply(w, DropEvent(t.mark)), t.mark, Count(faults, out))
    ensures TurnGoes(w1, t, Count(faults, out), w, RunReconcile(w, t, out))
  {
    assert RunReconcile(w, t, out) == (if out.Fail? then Skip else DropEvent(t.mark), Go(t.(point := NextChange)));
  }

  lemma TurnCall(w1: World, w: World, t: Thread, faults: nat, out: Outcome, r: (Eff, Cont))
    requires TurnFacts(w1, w, t, faults) && t.point.In? && Proceeds(w, t, t.point.sub, t.point.site, faults, out, r)
    ensures TurnGoes(w1, t, Count(faults, out), w, r)
  {
    match t.point.site {
      case ChangeApply => ApplyCall(w1, w, t, faults, out, r);
      case ChangeRemove => RemoveCall(w1, w, t, faults, out, r);
      case ChangeNft => NftCall(w1, w, t, faults, out, r);
    }
  }

  lemma TurnStep(w1: World, w: World, t: Thread, faults: nat, out: Outcome)
    requires Good(w1) && Good(w) && TurnFacts(w1, w, t, faults)
    ensures TurnGoes(w1, t, Count(faults, out), w, Micro(w, t, out))
  {
    if t.point.In? {
      TurnCallStep(w1, w, t, faults, out);
    } else if t.point.WantPeer? {
      EnterStep(w1, w, t, faults, out);
    } else {
      OwnTurnStep(w1, w, t, faults, out);
      OwnMicro(w, t, out);
    }
  }

  lemma OwnMicro(w: World, t: Thread, out: Outcome)
    requires w.localAsn < U32 && t.task.ReconcileTask? && !t.point.In? && !t.point.WantPeer?
    ensures Micro(w, t, out) == RunReconcile(w, t, out)
  {
  }

  lemma ReadTurn(w1: World, w: World, t: Thread, faults: nat, out: Outcome)
    requires Good(w) && TurnFacts(w1, w, t, faults) && t.point.ReadById?
    ensures TurnGoes(w1, t, Count(faults, out), w, RunReconcile(w, t, out))
  {
    ReadStep(w, t, faults, out);
  }

  lemma OwnTurnStep(w1: World, w: World, t: Thread, faults: nat, out: Outcome)
    requires Good(w1) && Good(w) && TurnFacts(w1, w, t, faults) && !t.point.In? && !t.point.WantPeer?
    ensures TurnGoes(w1, t, Count(faults, out), w, RunReconcile(w, t, out))
  {
    if t.point.ReadById? {
      ReadTurn(w1, w, t, faults, out);
    } else if t.point.DropChange? {
      DropTurn(w1, w, t, faults, out);
    } else {
      TurnWrite(w1, w, t, faults, out);
    }
  }

  lemma EnterStep(w1: World, w: World, t: Thread, faults: nat, out: Outcome)
    requires w.localAsn < U32 && TurnFacts(w1, w, t, faults) && t.point.WantPeer?
    ensures TurnGoes(w1, t, Count(faults, out), w, Micro(w, t, out))
  {
  }

  lemma DropTurn(w1: World, w: World, t: Thread, faults: nat, out: Outcome)
    requires Ident(w1) && TurnFacts(w1, w, t, faults) && t.point.DropChange?
    ensures TurnGoes(w1, t, Count(faults, out), w, RunReconcile(w, t, out))
  {
    DropEnds(w1, w, t.mark, faults, out);
    DropStep(w1, w, t, faults, out);
  }

  lemma TurnWrite(w1: World, w: World, t: Thread, faults: nat, out: Outcome)
    requires Ident(w1) && Good(w) && TurnFacts(w1, w, t, faults)
    requires !t.point.In? && !t.point.WantPeer? && !t.point.ReadById? && !t.point.DropChange?
    ensures TurnGoes(w1, t, Count(faults, out), w, RunReconcile(w, t, out))
  {
    assert t.target == w1.rows[t.target.id] && t.target.iface == t.target.id;
    if t.point.ChangeActivate? { ActivateStep(w1, w, t, faults, out); } else { EraseStep(w1, w, t, faults, out); }
  }

  lemma TurnCallStep(w1: World, w: World, t: Thread, faults: nat, out: Outcome)
    requires Good(w) && TurnFacts(w1, w, t, faults) && t.point.In?
    ensures TurnGoes(w1, t, Count(faults, out), w, Micro(w, t, out))
  {
    CallProceeds(w, t, t.point.sub, t.point.site, faults, out);
    TurnCall(w1, w, t, faults, out, Micro(w, t, out));
  }

  // ---- the pass ----

  /** Between two turns, with `todo` still to visit. */
  ghost predicate PassFacts(w0: World, w: World, todo: map<nat, Event>, faults: nat) {
    && Todo(w0, w, todo) && (faults == 0 ==> Pass(w0, w, todo)) && |Kept(w0.outbox, todo, w)| <= faults
  }

  /** In a turn for an event of `todo`, started in w1 after some of the faults. */
  ghost predicate TurnFrom(w0: World, w1: World, todo: map<nat, Event>, before: nat, w: World, t: Thread, faults: nat) {
    && Good(w1) && before <= faults && PassFacts(w0, w1, todo, before) && TurnFacts(w1, w, t, faults - before)
    && t.mark in todo && t.events == todo - {t.mark}
  }

  ghost predicate PassPoint(w0: World, w: World, t: Thread, faults: nat) {
    if t.point.NextChange? then t.task.ReconcileTask? && PassFacts(w0, w, t.events, faults)
    else exists w1, todo, before :: TurnFrom(w0, w1, todo, before, w, t, faults)
  }

  lemma TurnOver(w0: World, w1: World, w: World, todo: map<nat, Event>, e: nat, before: nat, faults: nat)
    requires Good(w0) && Good(w1) && PassFacts(w0, w1, todo, before) && before <= faults && e in todo && e in w1.outbox
    requires TurnEnds(w1, w, e, faults - before)
    ensures PassFacts(w0, w, todo - {e}, faults)
  {
    PassOn(w0, w1, w, todo, e, before == 0, faults == 0);
    KeptStep(w0.outbox, todo, w1, w, e);
  }

  lemma TurnStarts(w0: World, w: World, t: Thread, faults: nat, out: Outcome)
    requires Good(w) && ValidTask(t.task) && t.point.NextChange? && PassPoint(w0, w, t, faults)
    ensures var (eff, k) := Micro(w, t, out);
            && eff == Skip && (t.events == map[] ==> k == End)
            && (t.events != map[] ==> k.Go? && PassPoint(w0, w, k.t, Count(faults, out)))
  {
    if t.events != map[] {
      var e := Least(t.events);
      var k := Micro(w, t, out).1;
      var f := Count(faults, out);
      assert PassFacts(w0, w, t.events, f) by { assert faults <= f; }
      assert k.t.mark == e && k.t.events == t.events - {e};
      assert TurnFacts(w, w, k.t, f - f);
      assert TurnFrom(w0, w, t.events, f, w, k.t, f);
    }
  }

  lemma PassStep(w0: World, w: World, t: Thread, faults: nat, out: Outcome)
    requires Good(w0) && Good(w) && ValidTask(t.task) && PassPoint(w0, w, t, faults)
    ensures var (eff, k) := Micro(w, t, out);
            && (k.End? ==> PassFacts(w0, Apply(w, eff), map[], faults))
            && (k.Go? ==> PassPoint(w0, Apply(w, eff), k.t, Count(faults, out)))
            && (k.Go? || k.End?)
  {
    if t.point.NextChange? {
      TurnStarts(w0, w, t, faults, out);
    } else {
      InTurnStep(w0, w, t, faults, out);
    }
  }

  lemma InTurnStep(w0: World, w: World, t: Thread, faults: nat, out: Outcome)
    requires Good(w0) && Good(w) && ValidTask(t.task) && PassPoint(w0, w, t, faults) && !t.point.NextChange?
    ensures var (eff, k) := Micro(w, t, out);
            k.Go? && PassPoint(w0, Apply(w, eff), k.t, Count(faults, out))
  {
    var w1, todo, before :| TurnFrom(w0, w1, todo, before, w, t, faults);
    TurnMoves(w0, w1, todo, before, w, t, faults, out);
    TurnOn(w0, w1, todo, before, w, t, faults, out, Micro(w, t, out));
  }

  lemma TurnMoves(w0: World, w1: World, todo: map<nat, Event>, before: nat, w: World, t: Thread, faults: nat,
                  out: Outcome)
    requires Good(w) && ValidTask(t.task) && TurnFrom(w0, w1, todo, before, w, t, faults)
    ensures TurnGoes(w1, t, Count(faults - before, out), w, Micro(w, t, out))
  {
    TurnStep(w1, w, t, faults - before, out);
  }

  lemma TurnOn(w0: World, w1: World, todo: map<nat, Event>, before: nat, w: World, t: Thread, faults: nat, out: Outcome,
               r: (Eff, Cont))
    requires Good(w0) && TurnFrom(w0, w1, todo, before, w, t, faults)
    requires TurnGoes(w1, t, Count(faults - before, out), w, r)
    ensures r.1.Go? && PassPoint(w0, Apply(w, r.0), r.1.t, Count(faults, out))
  {
    var f := Count(faults, out);
    assert Count(faults - before, out) == f - before;
    if r.1.t.point.NextChange? {
      TurnOver(w0, w1, Apply(w, r.0), todo, t.mark, before, f);
    } else {
      assert TurnFrom(w0, w1, todo, before, Apply(w, r.0), r.1.t, f);
    }
  }

  /** The reconciler has just listed the outbox and nothing else is in flight; only its thread runs. */
  ghost predicate PassRun(states: seq<State>, steps: seq<Step>) {
    && IsRun(states, steps) && Invariant.Inv(states[0])
    && states[0].threads == map[Reconciler := NewThread(ReconcileTask, NextChange).(events := states[0].w.outbox)]
    && forall i :: 0 <= i < |steps| ==> steps[i].Run?
  }

  ghost predicate PassWhere(w0: World, s: State, faults: nat) {
    if s.threads == map[] then PassFacts(w0, s.w, map[], faults)
    else s.threads.Keys == {Reconciler} && PassPoint(w0, s.w, s.threads[Reconciler], faults)
  }

  lemma PassMoves(w0: World, s: State, faults: nat, step: Step)
    requires Good(w0) && Good(s.w) && PassWhere(w0, s, faults) && step.Run? && Enabled(s, step)
    ensures PassWhere(w0, Exec(s, step), Count(faults, step.out))
  {
    PassStep(w0, s.w, s.threads[Reconciler], faults, step.out);
    Continued(s, Reconciler, step.out);
  }

  lemma {:induction false} PassAt(states: seq<State>, steps: seq<Step>, i: nat)
    requires PassRun(states, steps) && i < |states|
    ensures PassWhere(states[0].w, states[i], Alone.Faults(steps, i))
  {
    if i == 0 {
      AllListed(states[0].w);
      PassBegins(states[0]);
    } else {
      PassAt(states, steps, i - 1);
      InvStays(states, steps, i - 1);
      PassMoves(states[0].w, states[i - 1], Alone.Faults(steps, i - 1), steps[i - 1]);
    }
  }

  lemma AllListed(w: World)
    requires Good(w)
    ensures PassFacts(w, w, w.outbox, 0)
  {
    PassStart(w);
    KeptEnds(w.outbox, w);
  }

  lemma PassBegins(s: State)
    requires PassFacts(s.w, s.w, s.w.outbox, 0)
    requires s.threads == map[Reconciler := NewThread(ReconcileTask, NextChange).(events := s.w.outbox)]
    ensures PassWhere(s.w, s, 0)
  {
    assert Reconciler in s.threads;
  }

  /** While the service serves, whatever disagrees with the table is recorded. */
  lemma ServingRecorded(s: State)
    requires Invariant.Covered(s) && Invariant.Retiring(s) == None
    ensures Recorded(s.w)
  {
    forall n ensures Settled(s.w, n) || HasEvent(s.w.outbox, n) {
      if Invariant.Pending(s, n) {
        var e :| Invariant.Live(s, e) && s.w.outbox[e].peer.id == n;
        assert e in s.w.outbox;
      }
    }
  }

  /** A pass alone: each listed event that is left is paid for by a failed call. Without one, everything is settled
      and only events of finished rows are left, and a pass that starts from such events leaves none. */
  lemma PassAlone(states: seq<State>, steps: seq<Step>, i: nat)
    requires PassRun(states, steps) && i < |states| && states[i].threads == map[]
    ensures var w0, w, faults := states[0].w, states[i].w, Alone.Faults(steps, i);
            && |w0.outbox.Keys * w.outbox.Keys| <= faults
            && (faults == 0 ==> BirdSettled(w) && (forall n :: Settled(w, n)) && AllQuiet(w))
            && (faults == 0 && AllQuiet(w0) ==> w.outbox == map[] && w.rows == w0.rows)
            && (faults == 0 ==> Work(w) + |w0.outbox| <= Work(w0))
  {
    var w0, w, faults := states[0].w, states[i].w, Alone.Faults(steps, i);
    PassAt(states, steps, i);
    KeptEnds(w0.outbox, w);
    assert Reconciler in states[0].threads;
    ServingRecorded(states[0]);
    if faults == 0 { PassEnd(w0, w); }
  }
}
