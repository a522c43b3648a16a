/** The shared procedures when nothing interferes: what holds between their calls, and what they return with. */
module Calls {
  import opened Peers
  import opened World
  import opened Machine
  import opened Manager
  import Invariant

  /** Calls that have reported an error, after one more. */
  function Count(faults: nat, out: Outcome): nat {
    if out.Succeed? then faults else faults + 1
  }

  /** Between two calls of a procedure that is working for the thread's target. */
  ghost predicate Facts(w: World, t: Thread, sub: Sub, site: Site, faults: nat) {
    var n := t.target.id;
    && Invariant.Fits(sub, site) && t.target.iface == n
    && (sub.DropLink? ==> RemoveSite(site))
    && (sub.AddLink? || sub.SetLink? || sub.Configure? || sub.AddAddress? ==> !RemoveSite(site))
    && (sub.BirdRestore? ==> faults > 0)
    && (sub.SetLink? || sub.Configure? || sub.AddAddress? ==> n in w.ifaces)
    && (sub.Configure? || sub.AddAddress? ==>
          w.ifaces[n].mtu == Some(t.target.mtu) && w.ifaces[n].alias == Some(n))
    && (sub.AddAddress? ==> w.ifaces[n].wg == Some(WgConf(t.target.port, t.target.pubkey)))
    && (BirdSub(sub) && !RemoveSite(site) ==> Shaped(w, t.target))
    && (BirdHasSnap(sub) || sub.NftWait? || sub.NftRun? ==> t.snap == w.rows)
    && (sub.BirdReload? || sub.DropLink? ==> w.current == AsksFor(w))
  }

  predicate Shaped(w: World, p: Peer) {
    p.id in w.ifaces && Configured(w.ifaces[p.id], p)
  }

  /** What a procedure that succeeded has achieved. */
  ghost predicate Achieved(w: World, t: Thread, sub: Sub, site: Site) {
    if NftSub(sub) then w.ports == DesiredPorts(w.rows)
    else w.current == AsksFor(w) && if RemoveSite(site) then t.target.id !in w.ifaces else Shaped(w, t.target)
  }

  /** What a procedure may change on the way. */
  predicate Touches(w: World, w': World, t: Thread, sub: Sub) {
    if NftSub(sub) then OnlyPorts(w, w') else OnlyExternal(w, w', t.target.id)
  }

  /** One call: the procedure goes on, succeeds, or fails because this call reported an error. */
  ghost predicate Proceeds(w: World, t: Thread, sub: Sub, site: Site, faults: nat, out: Outcome, r: (Eff, Cont)) {
    var (eff, k) := r;
    var w' := Apply(w, eff);
    && Touches(w, w', t, sub)
    && ( || GoesOn(w', t, k, sub, site, Count(faults, out))
         || (k == Return(t, site, true) && Achieved(w', t, sub, site))
         || (k == Return(t, site, false) && Count(faults, out) > 0))
  }

  ghost predicate GoesOn(w': World, t: Thread, k: Cont, sub: Sub, site: Site, faults: nat) {
    && k.Go? && k.t.point.In? && k.t.point.site == site && k.t == t.(point := k.t.point, snap := k.t.snap)
    && NftSub(k.t.point.sub) == NftSub(sub) && Facts(w', k.t, k.t.point.sub, site, faults)
  }

  lemma CallProceeds(w: World, t: Thread, sub: Sub, site: Site, faults: nat, out: Outcome)
    requires w.localAsn < U32 && ValidTask(t.task) && t.point == In(sub, site)
    requires Facts(w, t, sub, site, faults) && site != RvApply && (BirdHasSnap(sub) ==> !BadIfaceName(w.rows))
    ensures Proceeds(w, t, sub, site, faults, out, Micro(w, t, out))
  {
    assert Micro(w, t, out) == RunSub(w, t, sub, site, out);
    if BirdSub(sub) {
      BirdProceeds(w, t, sub, site, faults, out);
    } else if NftSub(sub) {
      NftProceeds(w, t, sub, site, faults, out);
    } else {
      LinkProceeds(w, t, sub, site, faults, out);
    }
  }

  lemma LinkProceeds(w: World, t: Thread, sub: Sub, site: Site, faults: nat, out: Outcome)
    requires t.point == In(sub, site) && Facts(w, t, sub, site, faults) && site != RvApply
    requires !BirdSub(sub) && !NftSub(sub)
    ensures Proceeds(w, t, sub, site, faults, out, RunLink(w, t, sub, site, out))
  {
    match sub {
      case AddLink => AddProceeds(w, t, site, faults, out);
      case AddAddress => AddressProceeds(w, t, site, faults, out);
      case DropLink => DropProceeds(w, t, site, faults, out);
      case _ => SetProceeds(w, t, sub, site, faults, out);
    }
  }

  lemma AddProceeds(w: World, t: Thread, site: Site, faults: nat, out: Outcome)
    requires t.point == In(AddLink, site) && Facts(w, t, AddLink, site, faults)
    ensures Proceeds(w, t, AddLink, site, faults, out, RunLink(w, t, AddLink, site, out))
  {
  }

  lemma DropProceeds(w: World, t: Thread, site: Site, faults: nat, out: Outcome)
    requires t.point == In(DropLink, site) && Facts(w, t, DropLink, site, faults)
    ensures Proceeds(w, t, DropLink, site, faults, out, RunLink(w, t, DropLink, site, out))
  {
  }

  lemma SetProceeds(w: World, t: Thread, sub: Sub, site: Site, faults: nat, out: Outcome)
    requires t.point == In(sub, site) && Facts(w, t, sub, site, faults) && (sub.SetLink? || sub.Configure?)
    ensures Proceeds(w, t, sub, site, faults, out, RunLink(w, t, sub, site, out))
  {
  }

  lemma AddressProceeds(w: World, t: Thread, site: Site, faults: nat, out: Outcome)
    requires t.point == In(AddAddress, site) && Facts(w, t, AddAddress, site, faults) && site != RvApply
    ensures Proceeds(w, t, AddAddress, site, faults, out, RunLink(w, t, AddAddress, site, out))
  {
  }

  lemma NftProceeds(w: World, t: Thread, sub: Sub, site: Site, faults: nat, out: Outcome)
    requires t.point == In(sub, site) && Facts(w, t, sub, site, faults) && NftSub(sub)
    ensures Proceeds(w, t, sub, site, faults, out, RunNft(w, t, sub, site, out))
  {
  }

  lemma BirdProceeds(w: World, t: Thread, sub: Sub, site: Site, faults: nat, out: Outcome)
    requires t.point == In(sub, site) && Facts(w, t, sub, site, faults)
    requires BirdSub(sub) && (BirdHasSnap(sub) ==> !BadIfaceName(w.rows))
    ensures Proceeds(w, t, sub, site, faults, out, RunBird(w, t, sub, site, out))
  {
    if sub.BirdCompare? {
      CompareProceeds(w, t, sub, site, faults, out);
    } else if sub.BirdSwitch? {
      SwitchProceeds(w, t, sub, site, faults, out);
    } else if sub.BirdReload? || sub.BirdRestore? {
      ReloadProceeds(w, t, sub, site, faults, out);
    } else {
      ListProceeds(w, t, sub, site, faults, out);
    }
  }

  lemma CompareProceeds(w: World, t: Thread, sub: Sub, site: Site, faults: nat, out: Outcome)
    requires t.point == In(sub, site) && Facts(w, t, sub, site, faults) && sub.BirdCompare? && !BadIfaceName(w.rows)
    ensures Proceeds(w, t, sub, site, faults, out, RunBird(w, t, sub, site, out))
  {
  }

  lemma SwitchProceeds(w: World, t: Thread, sub: Sub, site: Site, faults: nat, out: Outcome)
    requires t.point == In(sub, site) && Facts(w, t, sub, site, faults) && sub.BirdSwitch?
    ensures Proceeds(w, t, sub, site, faults, out, RunBird(w, t, sub, site, out))
  {
  }

  lemma ReloadProceeds(w: World, t: Thread, sub: Sub, site: Site, faults: nat, out: Outcome)
    requires t.point == In(sub, site) && Facts(w, t, sub, site, faults) && (sub.BirdReload? || sub.BirdRestore?)
    ensures Proceeds(w, t, sub, site, faults, out, RunBird(w, t, sub, site, out))
  {
  }

  lemma ListProceeds(w: World, t: Thread, sub: Sub, site: Site, faults: nat, out: Outcome)
    requires t.point == In(sub, site) && Facts(w, t, sub, site, faults)
    requires sub.BirdList? || sub.BirdWait? || sub.BirdPeek?
    ensures Proceeds(w, t, sub, site, faults, out, RunBird(w, t, sub, site, out))
  {
  }
}
