/** The reconciler only does what is allowed, keeps its invariant, and knows enough about the
    world when it retires an event. */
module ReconcilerProof {
  import opened Peers
  import opened World
  import opened Machine
  import opened Invariant
  import opened Stability
  import opened RequestProof

  ghost predicate Acts(s: State, t: Thread) {
    Reconciler in s.threads && s.threads[Reconciler] == t && Todo(s.w, t)
  }

  ghost predicate Sound(s: State, r: (Eff, Cont)) {
    && Allowed(s, Reconciler, r.0)
    && !r.1.Die? && !r.1.Ready?
    && (r.1.Go? ==> ReconcilerInv(After(s, r.0), r.1.t))
    && (r.1.Go? && r.1.t.point.DropChange? ==> r.0.SetPorts? && DoneFact(Apply(s.w, r.0), r.1.t))
  }

  predicate OutEff(eff: Eff) {
    eff.Skip? || eff.SetIface? || eff.DropIface? || eff.SetCurrent? || eff.SetPorts?
  }

  /** Effects on the external systems leave the todo list and the claim alone. */
  lemma ClaimKept(w: World, eff: Eff, t: Thread)
    requires Todo(w, t) && Claim(w, t) && OutEff(eff)
    ensures Todo(Apply(w, eff), t) && Claim(Apply(w, eff), t)
  {
  }

  /** So do row writes. */
  lemma ClaimKeptByWrite(w: World, eff: Eff, t: Thread)
    requires Ident(w) && Todo(w, t) && Claim(w, t)
    requires eff.Skip? || eff.SetRow? || (eff.EraseRow? && eff.id in w.rows)
    ensures Todo(Apply(w, eff), t) && Claim(Apply(w, eff), t)
  {
  }

  // ---- entering each kind of point ----

  lemma EnterNext(s: State, eff: Eff, t: Thread)
    requires Allowed(s, Reconciler, eff) && Todo(Apply(s.w, eff), t)
    ensures Sound(s, (eff, Go(t.(point := NextChange))))
  {
  }

  lemma EnterIn(s: State, eff: Eff, t: Thread, sub: Sub, site: Site)
    requires Allowed(s, Reconciler, eff) && Todo(Apply(s.w, eff), t) && Claim(Apply(s.w, eff), t)
    requires InFacts(Apply(s.w, eff), t, sub, site)
    ensures Sound(s, (eff, Go(t.(point := In(sub, site)))))
  {
    var t' := t.(point := In(sub, site));
    assert InFacts(Apply(s.w, eff), t', sub, site) by { FactsIgnorePoint(Apply(s.w, eff), t, In(sub, site)); }
  }

  lemma EnterActivate(s: State, eff: Eff, t: Thread)
    requires Allowed(s, Reconciler, eff) && Todo(Apply(s.w, eff), t) && Claim(Apply(s.w, eff), t)
    requires ActivateFacts(Apply(s.w, eff), t)
    ensures Sound(s, (eff, Go(t.(point := ChangeActivate))))
  {
    FactsIgnorePoint(Apply(s.w, eff), t, ChangeActivate);
  }

  lemma EnterErase(s: State, eff: Eff, t: Thread)
    requires Allowed(s, Reconciler, eff) && Todo(Apply(s.w, eff), t) && Claim(Apply(s.w, eff), t)
    requires EraseFacts(Apply(s.w, eff), t)
    ensures Sound(s, (eff, Go(t.(point := ChangeErase))))
  {
    FactsIgnorePoint(Apply(s.w, eff), t, ChangeErase);
  }

  lemma EnterDrop(s: State, eff: Eff, t: Thread)
    requires eff.SetPorts? && Todo(Apply(s.w, eff), t) && Claim(Apply(s.w, eff), t)
    requires DoneFact(Apply(s.w, eff), t)
    ensures Sound(s, (eff, Go(t.(point := DropChange))))
  {
    FactsIgnorePoint(Apply(s.w, eff), t, DropChange);
  }

  /** What is known about the world does not depend on where the thread stands. */
  lemma FactsIgnorePoint(w: World, t: Thread, p: Point)
    ensures var t' := t.(point := p);
            && RowFact(w, t') == RowFact(w, t) && DeleteFact(w, t') == DeleteFact(w, t)
            && SnapFact(w, t') == SnapFact(w, t) && CurrentFact(w, t') == CurrentFact(w, t)
            && IfaceFact(w, t') == IfaceFact(w, t) && DoneFact(w, t') == DoneFact(w, t)
  {
  }

  // ---- single steps ----

  lemma TakeNext(s: State, t: Thread, out: Outcome)
    requires Base(s) && Acts(s, t) && t.point.NextChange?
    ensures Sound(s, RunReconcile(s.w, t, out))
  {
    if t.events != map[] {
      var e := Least(t.events);
      assert EventOk(s.w, s.w.outbox[e]);
    }
  }

  lemma DropStep(s: State, t: Thread, out: Outcome)
    requires Acts(s, t) && t.point.DropChange? && Claim(s.w, t)
    ensures Sound(s, RunReconcile(s.w, t, out))
  {
    EnterNext(s, Skip, t);
    EnterNext(s, DropEvent(t.mark), t);
  }

  lemma FoundFacts(w: World, t: Thread)
    requires t.found && t.target.id in w.rows && w.rows[t.target.id] == t.target
    ensures if Wanted(t.target) then InFacts(w, t, AddLink, ChangeApply) else InFacts(w, t, BirdList, ChangeRemove)
  {
  }

  lemma FoundRow(s: State, t: Thread)
    requires Base(s) && Acts(s, t) && Claim(s.w, t) && t.target.id in s.w.rows
    ensures var row := s.w.rows[t.target.id];
            Sound(s, (Skip, Go(t.(target := row, found := true,
                                  point := if Wanted(row) then In(AddLink, ChangeApply) else In(BirdList,
                                            ChangeRemove)))))
  {
    RowIsPeer(s.w, t.target.id);
    var t' := t.(target := s.w.rows[t.target.id], found := true);
    FoundFacts(s.w, t');
    EnterIn(s, Skip, t', if Wanted(t'.target) then AddLink else BirdList,
              if Wanted(t'.target) then ChangeApply else ChangeRemove);
  }

  lemma ReadRow(s: State, t: Thread, out: Outcome)
    requires Base(s) && Acts(s, t) && t.point.ReadById? && Claim(s.w, t) && !t.found
    ensures Sound(s, RunReconcile(s.w, t, out))
  {
    EnterNext(s, Skip, t);
    if t.target.id in s.w.rows {
      FoundRow(s, t);
    } else {
      EnterIn(s, Skip, t, BirdList, ChangeRemove);
    }
  }

  lemma WriteStatus(s: State, t: Thread, out: Outcome)
    requires Base(s) && Acts(s, t) && t.point.ChangeActivate? && Claim(s.w, t) && ActivateFacts(s.w, t)
    ensures Sound(s, RunReconcile(s.w, t, out))
  {
    var eff := StatusWrite(s.w, t.target.id, Active, out);
    StatusAllowed(s, Reconciler, t.target.id, Active, out);
    ClaimKeptByWrite(s.w, eff, t);
    EnterNext(s, eff, t);
    if Wrote(s.w, t.target.id, out) {
      RowIsPeer(s.w, t.target.id);
      WriteIsOther(s.w, eff, t.target.id, t.mark);
      EnterIn(s, eff, t, NftList, ChangeNft);
    }
  }

  lemma WriteErase(s: State, t: Thread, out: Outcome)
    requires Base(s) && Acts(s, t) && t.point.ChangeErase? && Claim(s.w, t) && EraseFacts(s.w, t)
    ensures Sound(s, RunReconcile(s.w, t, out))
  {
    var eff := EraseWrite(s.w, t.target.id, out);
    ClaimKeptByWrite(s.w, eff, t);
    EnterNext(s, eff, t);
    if Wrote(s.w, t.target.id, out) {
      RowIsPeer(s.w, t.target.id);
      WriteIsOther(s.w, eff, t.target.id, t.mark);
      EnterIn(s, eff, t, NftList, ChangeNft);
    }
  }

  // ---- bringing an interface up ----

  lemma ApplyEntitled(s: State, t: Thread)
    requires Acts(s, t) && Claim(s.w, t) && t.point.In?
    ensures CanTouch(s, Reconciler)
    ensures DeleteFact(s.w, t) ==> t.target.id in s.w.rows || PendingDelete(s, t.target.id)
  {
    assert Live(s, t.mark);
    if DeleteFact(s.w, t) && t.target.id !in s.w.rows {
      var e :| e in s.w.outbox && e != t.mark && s.w.outbox[e].peer.id == t.target.id && s.w.outbox[e].op == Delete;
      assert Live(s, e);
    }
  }

  /** Changing only its own interface keeps everything but the interface facts. */
  lemma OwnIface(w: World, eff: Eff, t: Thread)
    requires (eff.SetIface? || eff.DropIface?) && eff.name == t.target.id
    ensures var w' := Apply(w, eff);
            && (RowFact(w, t) ==> RowFact(w', t)) && (DeleteFact(w, t) ==> DeleteFact(w', t))
            && (CurrentFact(w, t) ==> CurrentFact(w', t)) && (SnapFact(w, t) ==> SnapFact(w', t))
  {
    OtherKept(w, Apply(w, eff), t.target.id, t.mark);
  }

  lemma OwnCurrent(w: World, g: Option<Generation>, t: Thread)
    ensures var w' := Apply(w, SetCurrent(g));
            && (RowFact(w, t) ==> RowFact(w', t)) && (DeleteFact(w, t) ==> DeleteFact(w', t))
            && (SnapFact(w, t) ==> SnapFact(w', t))
            && (SnapFact(w, t) && g == Some(DesiredGeneration(w.localAsn, t.snap)) ==> CurrentFact(w', t))
  {
    OtherKept(w, Apply(w, SetCurrent(g)), t.target.id, t.mark);
  }

  /** A failed call gives up on the event; it stays in the outbox. */
  lemma Failed(s: State, eff: Eff, t: Thread, site: Site)
    requires Acts(s, t) && Claim(s.w, t) && ChangeSite(site) && OutEff(eff) && Allowed(s, Reconciler, eff)
    ensures Sound(s, (eff, Return(t, site, false)))
  {
    ClaimKept(s.w, eff, t);
    EnterNext(s, eff, t);
  }

  lemma CallSound(s: State, t: Thread, site: Site, out: Outcome, eff: Eff, next: Cont)
    requires Acts(s, t) && Claim(s.w, t) && ChangeSite(site) && OutEff(eff) && Allowed(s, Reconciler, eff)
    requires Sound(s, (eff, next))
    ensures Sound(s, Link(t, site, out, eff, next))
  {
    Failed(s, eff, t, site);
    Failed(s, Skip, t, site);
  }

  function NextSub(sub: Sub): Sub {
    if sub.SetLink? then Configure else if sub.Configure? then AddAddress else BirdList
  }

  /** Each interface call establishes the next part of the configuration. */
  lemma TuneFacts(w: World, t: Thread, sub: Sub)
    requires ApplyFacts(w, t, sub) && t.target.id in w.ifaces
    requires sub.SetLink? || sub.Configure? || sub.AddAddress?
    ensures ApplyFacts(Apply(w, SetIface(t.target.id, Tuned(w.ifaces[t.target.id], t.target, sub))), t, NextSub(sub))
  {
    OwnIface(w, SetIface(t.target.id, Tuned(w.ifaces[t.target.id], t.target, sub)), t);
  }

  /** A call that continues inside the same procedure when it succeeds. */
  lemma CallIn(s: State, t: Thread, site: Site, out: Outcome, eff: Eff, sub': Sub)
    requires Acts(s, t) && Claim(s.w, t) && ChangeSite(site) && OutEff(eff) && Allowed(s, Reconciler, eff)
    requires InFacts(Apply(s.w, eff), t, sub', site)
    ensures Sound(s, Link(t, site, out, eff, Go(t.(point := In(sub', site)))))
  {
    ClaimKept(s.w, eff, t);
    EnterIn(s, eff, t, sub', site);
    CallSound(s, t, site, out, eff, Go(t.(point := In(sub', site))));
  }

  lemma ApplyLink(s: State, t: Thread, sub: Sub, out: Outcome)
    requires Acts(s, t) && Claim(s.w, t) && t.point == In(sub, ChangeApply) && ApplyFacts(s.w, t, sub)
    requires sub.SetLink? || sub.Configure? || sub.AddAddress?
    ensures Sound(s, RunLink(s.w, t, sub, ChangeApply, out))
  {
    var n := t.target.id;
    Failed(s, Skip, t, ChangeApply);
    if n in s.w.ifaces {
      var eff := SetIface(n, Tuned(s.w.ifaces[n], t.target, sub));
      ApplyEntitled(s, t);
      TuneFacts(s.w, t, sub);
      CallIn(s, t, ChangeApply, out, eff, NextSub(sub));
    }
  }

  lemma ApplyAdd(s: State, t: Thread, out: Outcome)
    requires Acts(s, t) && Claim(s.w, t) && t.point == In(AddLink, ChangeApply) && ApplyFacts(s.w, t, AddLink)
    ensures Sound(s, RunLink(s.w, t, AddLink, ChangeApply, out))
  {
    Failed(s, Skip, t, ChangeApply);
    EnterIn(s, Skip, t, SetLink, ChangeApply);
    var eff := SetIface(t.target.id, BARE_LINK);
    ApplyEntitled(s, t);
    ClaimKept(s.w, eff, t);
    OwnIface(s.w, eff, t);
    EnterIn(s, eff, t, SetLink, ChangeApply);
    CallSound(s, t, ChangeApply, out, eff, Go(t.(point := In(SetLink, ChangeApply))));
  }

  /** BIRD agrees with the rows, or another event says that it will be looked at again. */
  lemma BirdFinished(s: State, t: Thread, site: Site, sub: Sub)
    requires Acts(s, t) && Claim(s.w, t) && CurrentFact(s.w, t) && BirdSub(sub)
    requires (site == ChangeApply && ApplyFacts(s.w, t, sub)) || (site == ChangeRemove && RemoveFacts(s.w, t, sub))
    ensures Sound(s, (Skip, BirdDone(t, site)))
  {
    if site == ChangeRemove {
      EnterIn(s, Skip, t, DropLink, ChangeRemove);
    } else if t.target.status != Active {
      EnterActivate(s, Skip, t);
    } else {
      EnterIn(s, Skip, t, NftList, ChangeNft);
    }
  }

  /** The facts carried along while BIRD is synchronised. */
  ghost predicate Carrying(w: World, t: Thread, sub: Sub, site: Site) {
    (site == ChangeApply && ApplyFacts(w, t, sub)) || (site == ChangeRemove && RemoveFacts(w, t, sub))
  }

  lemma Carry(s: State, t: Thread, sub: Sub, site: Site, sub': Sub, g: Option<Generation>)
    requires Carrying(s.w, t, sub, site) && BirdSub(sub) && BirdSub(sub')
    requires BirdHasSnap(sub') ==> SnapFact(s.w, t)
    requires sub'.BirdReload? ==> SnapFact(s.w, t) && g == Some(DesiredGeneration(s.w.localAsn, t.snap))
    ensures InFacts(Apply(s.w, SetCurrent(g)), t, sub', site)
    ensures !sub'.BirdReload? ==> InFacts(s.w, t, sub', site)
  {
    OwnCurrent(s.w, g, t);
  }

  lemma ListStep(s: State, t: Thread, site: Site, out: Outcome)
    requires Acts(s, t) && Claim(s.w, t) && t.point == In(BirdList, site) && Carrying(s.w, t, BirdList, site)
    ensures Sound(s, RunBird(s.w, t, BirdList, site, out))
  {
    Failed(s, Skip, t, site);
    var t' := t.(snap := s.w.rows);
    assert Carrying(s.w, t', BirdList, site);
    Carry(s, t', BirdList, site, BirdWait, None);
    EnterIn(s, Skip, t', BirdWait, site);
  }

  /** A missing link is pointed at the empty generation. */
  lemma PointFirst(s: State, t: Thread, site: Site)
    requires Acts(s, t) && Claim(s.w, t) && t.point == In(BirdCompare, site) && Carrying(s.w, t, BirdCompare, site)
    ensures Sound(s, (SetCurrent(Some(map[])), Go(t.(point := In(BirdCompare, site)))))
    ensures Sound(s, (SetCurrent(Some(map[])), Return(t, site, false)))
  {
    var g := Some(map[]);
    ApplyEntitled(s, t);
    ClaimKept(s.w, SetCurrent(g), t);
    Failed(s, SetCurrent(g), t, site);
    Carry(s, t, BirdCompare, site, BirdCompare, g);
    EnterIn(s, SetCurrent(g), t, BirdCompare, site);
  }

  lemma CompareStep(s: State, t: Thread, site: Site, out: Outcome)
    requires Acts(s, t) && Claim(s.w, t) && t.point == In(BirdCompare, site) && Carrying(s.w, t, BirdCompare, site)
    ensures Sound(s, RunBird(s.w, t, BirdCompare, site, out))
  {
    Failed(s, Skip, t, site);
    PointFirst(s, t, site);
    Carry(s, t, BirdCompare, site, BirdPeek, Some(map[]));
    EnterIn(s, Skip, t, BirdPeek, site);
    if s.w.current == Some(DesiredGeneration(s.w.localAsn, t.snap)) {
      BirdFinished(s, t, site, BirdCompare);
    }
  }

  lemma SwitchStep(s: State, t: Thread, site: Site, prior: Option<Generation>, out: Outcome)
    requires Acts(s, t) && Claim(s.w, t) && t.point == In(BirdSwitch(prior), site)
    requires Carrying(s.w, t, BirdSwitch(prior), site)
    ensures Sound(s, RunBird(s.w, t, BirdSwitch(prior), site, out))
  {
    var g := Some(DesiredGeneration(s.w.localAsn, t.snap));
    SwitchIsLink(s.w, t, site, prior, out);
    SwitchFacts(s.w, t, site, prior);
    SwitchCall(s, t, site, out, g, BirdReload(prior));
  }

  lemma SwitchIsLink(w: World, t: Thread, site: Site, prior: Option<Generation>, out: Outcome)
    ensures RunBird(w, t, BirdSwitch(prior), site, out)
         == Link(t, site, out, SetCurrent(Some(DesiredGeneration(w.localAsn, t.snap))),
                 Go(t.(point := In(BirdReload(prior), site))))
  {
  }

  lemma SwitchCall(s: State, t: Thread, site: Site, out: Outcome, g: Option<Generation>, next: Sub)
    requires Acts(s, t) && Claim(s.w, t) && t.point.In? && ChangeSite(site)
    requires InFacts(Apply(s.w, SetCurrent(g)), t, next, site)
    ensures Sound(s, Link(t, site, out, SetCurrent(g), Go(t.(point := In(next, site)))))
  {
    ApplyEntitled(s, t);
    CallIn(s, t, site, out, SetCurrent(g), next);
  }

  lemma SwitchFacts(w: World, t: Thread, site: Site, prior: Option<Generation>)
    requires Carrying(w, t, BirdSwitch(prior), site)
    ensures var g := Some(DesiredGeneration(w.localAsn, t.snap));
            ChangeSite(site) && InFacts(Apply(w, SetCurrent(g)), t, BirdReload(prior), site)
  {
    OwnCurrent(w, Some(DesiredGeneration(w.localAsn, t.snap)), t);
  }

  lemma BirdEnd(s: State, t: Thread, site: Site, sub: Sub, out: Outcome)
    requires Acts(s, t) && Claim(s.w, t) && t.point == In(sub, site) && Carrying(s.w, t, sub, site)
    requires sub.BirdReload? || sub.BirdRestore?
    ensures Sound(s, RunBird(s.w, t, sub, site, out))
  {
    ApplyEntitled(s, t);
    if sub.BirdReload? {
      BirdFinished(s, t, site, sub);
      Carry(s, t, sub, site, BirdRestore(sub.prior), None);
      EnterIn(s, Skip, t, BirdRestore(sub.prior), site);
    } else {
      Failed(s, Skip, t, site);
      Failed(s, SetCurrent(sub.prior), t, site);
    }
  }

  lemma BirdMiddle(s: State, t: Thread, site: Site, sub: Sub, out: Outcome)
    requires Acts(s, t) && Claim(s.w, t) && t.point == In(sub, site) && Carrying(s.w, t, sub, site)
    requires sub.BirdWait? || sub.BirdPeek?
    ensures Sound(s, RunBird(s.w, t, sub, site, out))
  {
    if sub.BirdWait? {
      Carry(s, t, sub, site, BirdCompare, None);
      EnterIn(s, Skip, t, BirdCompare, site);
    } else {
      var prior := if out.Succeed? then s.w.current else None;
      Carry(s, t, sub, site, BirdSwitch(prior), None);
      EnterIn(s, Skip, t, BirdSwitch(prior), site);
    }
  }

  lemma BirdStep(s: State, t: Thread, site: Site, sub: Sub, out: Outcome)
    requires Acts(s, t) && Claim(s.w, t) && t.point == In(sub, site) && Carrying(s.w, t, sub, site) && BirdSub(sub)
    ensures Sound(s, RunBird(s.w, t, sub, site, out))
  {
    match sub {
      case BirdList => ListStep(s, t, site, out);
      case BirdCompare => CompareStep(s, t, site, out);
      case BirdSwitch(prior) => SwitchStep(s, t, site, prior, out);
      case BirdReload(_) => BirdEnd(s, t, site, sub, out);
      case BirdRestore(_) => BirdEnd(s, t, site, sub, out);
      case _ => BirdMiddle(s, t, site, sub, out);
    }
  }

  // ---- taking an interface down ----

  lemma RemovedOn(s: State, t: Thread)
    requires Acts(s, t) && Claim(s.w, t) && t.point == In(DropLink, ChangeRemove) && RemoveFacts(s.w, t, DropLink)
    ensures Sound(s, (DropIface(t.target.id), Return(t, ChangeRemove, true)))
  {
    var eff := DropIface(t.target.id);
    ApplyEntitled(s, t);
    ClaimKept(s.w, eff, t);
    OwnIface(s.w, eff, t);
    if t.found && t.target.status == Deleting {
      EnterErase(s, eff, t);
    } else {
      assert Settled(Apply(s.w, eff), t.target.id) || Other(Apply(s.w, eff), t.target.id, t.mark);
      EnterIn(s, eff, t, NftList, ChangeNft);
    }
  }

  lemma RemoveLink(s: State, t: Thread, out: Outcome)
    requires Acts(s, t) && Claim(s.w, t) && t.point == In(DropLink, ChangeRemove) && RemoveFacts(s.w, t, DropLink)
    ensures Sound(s, RunLink(s.w, t, DropLink, ChangeRemove, out))
  {
    var eff := DropIface(t.target.id);
    RemovedOn(s, t);
    DropAllowed(s, t);
    CallSound(s, t, ChangeRemove, out, eff, Return(t, ChangeRemove, true));
  }

  lemma DropAllowed(s: State, t: Thread)
    requires Acts(s, t) && Claim(s.w, t) && t.point.In?
    ensures Allowed(s, Reconciler, DropIface(t.target.id)) && t.target.iface == t.target.id
  {
    ApplyEntitled(s, t);
  }

  lemma FinishNft(s: State, t: Thread, sub: Sub, out: Outcome)
    requires Acts(s, t) && Claim(s.w, t) && t.point == In(sub, ChangeNft) && NftSub(sub) && DoneFact(s.w, t)
    ensures Sound(s, RunNft(s.w, t, sub, ChangeNft, out))
  {
    Failed(s, Skip, t, ChangeNft);
    if sub.NftRun? {
      var eff := SetPorts(DesiredPorts(t.snap));
      ClaimKept(s.w, eff, t);
      OtherKept(s.w, Apply(s.w, eff), t.target.id, t.mark);
      EnterDrop(s, eff, t);
      CallSound(s, t, ChangeNft, out, eff, Return(t, ChangeNft, true));
    } else if sub.NftList? {
      var t' := t.(snap := s.w.rows);
      EnterIn(s, Skip, t', NftWait, ChangeNft);
    } else {
      EnterIn(s, Skip, t, NftRun, ChangeNft);
    }
  }

  lemma InStep(s: State, t: Thread, sub: Sub, site: Site, out: Outcome)
    requires Base(s) && Acts(s, t) && Claim(s.w, t) && t.point == In(sub, site) && InFacts(s.w, t, sub, site)
    ensures Sound(s, RunSub(s.w, t, sub, site, out))
  {
    if site == ChangeNft { NftStep(s, t, sub, out); }
    else if BirdSub(sub) { BirdStep(s, t, site, sub, out); }
    else { LinkStep(s, t, sub, site, out); }
  }

  lemma NftStep(s: State, t: Thread, sub: Sub, out: Outcome)
    requires Acts(s, t) && Claim(s.w, t) && t.point == In(sub, ChangeNft) && InFacts(s.w, t, sub, ChangeNft)
    ensures Sound(s, RunSub(s.w, t, sub, ChangeNft, out))
  {
    FinishNft(s, t, sub, out);
  }

  lemma LinkStep(s: State, t: Thread, sub: Sub, site: Site, out: Outcome)
    requires Base(s) && Acts(s, t) && Claim(s.w, t) && t.point == In(sub, site) && InFacts(s.w, t, sub, site)
    requires site != ChangeNft && !BirdSub(sub)
    ensures Sound(s, RunLink(s.w, t, sub, site, out))
  {
    if site == ChangeRemove { RemoveLink(s, t, out); }
    else if sub.AddLink? { ApplyAdd(s, t, out); }
    else { ApplyLink(s, t, sub, out); }
  }

  lemma CallStep(s: State, t: Thread, out: Outcome)
    requires Base(s) && Acts(s, t) && ReconcilerInv(s, t) && t.point.In? && ValidTask(t.task)
    ensures Sound(s, Micro(s.w, t, out))
  {
    InStep(s, t, t.point.sub, t.point.site, out);
  }

  lemma LockStep(s: State, t: Thread, out: Outcome)
    requires Base(s) && Acts(s, t) && ReconcilerInv(s, t) && t.point.WantPeer? && ValidTask(t.task)
    ensures Sound(s, Micro(s.w, t, out))
  {
  }

  lemma ReconcilerStep(s: State, t: Thread, out: Outcome)
    requires Base(s) && Acts(s, t) && ReconcilerInv(s, t)
    ensures Sound(s, Micro(s.w, t, out))
  {
    match t.point {
      case In(_, _) => CallStep(s, t, out);
      case WantPeer => LockStep(s, t, out);
      case ReadById => ReadRow(s, t, out);
      case ChangeActivate => WriteStatus(s, t, out);
      case ChangeErase => WriteErase(s, t, out);
      case DropChange => DropStep(s, t, out);
      case NextChange => TakeNext(s, t, out);
    }
  }
}
