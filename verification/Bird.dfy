/** Switching the BIRD configuration: a new generation directory is written, a symbolic link is
    moved to it atomically, the daemon is told to reload, and a refused configuration is undone. */
module Bird {
  import opened Peers
  import opened World

  /** An entry of `generations/`. */
  datatype Name = Empty | Generated(suffix: nat)

  /** The configuration root: the generation directories and what `current` points to. */
  datatype Tree = Tree(dirs: map<Name, Generation>, current: Option<Name>)

  /** How the calls of one synchronisation end. For a switch, `FailAfter` is a rename that happened
      although the directory flush after it failed. `left` is what could not be removed of old directories. */
  datatype Faults = Faults(
    layout: bool, point: Outcome, read: bool, create: bool, writes: nat, flush: bool,
    peek: bool, switched: Outcome, reload: bool, restore: Outcome, again: bool, left: map<Name, Generation>)

  /** The configuration that the daemon would load. A missing link includes no file. */
  function Shown(t: Tree): Generation {
    if t.current.Some? && t.current.value in t.dirs then t.dirs[t.current.value] else map[]
  }

  /** `current` points to an existing directory holding all the files it was created for. */
  predicate Safe(t: Tree, goals: map<Name, Generation>) {
    t.current.Some? ==>
      && t.current.value in t.dirs && t.current.value in goals
      && t.dirs[t.current.value] == goals[t.current.value]
  }

  /** A directory that is not there has nothing written to it yet. */
  predicate Tracked(t: Tree, goals: map<Name, Generation>) {
    && (Empty in goals && goals[Empty] == map[])
    && (Empty in t.dirs ==> t.dirs[Empty] == map[])
  }

  /** A state from which the service can start. */
  predicate Sound(t: Tree, goals: map<Name, Generation>) {
    Safe(t, goals) && Tracked(t, goals)
  }

  /** Everything up to the switch goes well. The name must be new and the rows must be well formed. */
  ghost predicate Prepared(t: Tree, peers: map<nat, Peer>, suffix: nat, f: Faults) {
    && Comparable(t, peers, f)
    && f.create && Generated(suffix) !in t.dirs && f.writes >= |WantedKeys(peers)| && f.flush
  }

  /** Of the generations only this one is left, besides the empty one and what could not be removed. */
  predicate OnlyGeneration(t: Tree, name: Name, f: Faults) {
    t.current == Some(name) && forall n :: n in t.dirs ==> n == Empty || n == name || n in f.left
  }

  predicate Buildable(t: Tree, desired: Generation, suffix: nat, f: Faults) {
    f.create && Generated(suffix) !in t.dirs && f.writes >= |desired.Keys| && f.flush
  }

  ghost predicate Comparable(t: Tree, peers: map<nat, Peer>, f: Faults) {
    f.layout && (t.current.None? ==> f.point.Succeed?) && f.read && !BadName(peers)
  }

  ghost function WantedKeys(peers: map<nat, Peer>): set<nat> {
    set n | n in peers && Wanted(peers[n])
  }

  ghost predicate BadName(peers: map<nat, Peer>) {
    exists n :: n in WantedKeys(peers) && peers[n].iface != n
  }

  /** A switch that took place is undone when the daemon refuses the configuration. */
  predicate Undone(f: Faults) {
    match f.switched
    case Fail => true
    case FailAfter => false
    case Succeed => f.peek && !f.restore.Fail?
  }

  /** What a reader of the link may see while a synchronisation runs. */
  predicate Visible(g: Generation, prior: Generation, desired: Generation, f: Faults) {
    g == prior || g == desired || (!f.peek && g == map[])
  }

  class Store {
    const localAsn: nat
    var tree: Tree
    var loaded: Generation                  // the daemon's configuration
    ghost var goals: map<Name, Generation>  // what each directory was created for
    ghost var trace: seq<Tree>              // every state of the tree, one per file system call

    ghost predicate Valid()
      reads this
    {
      Sound(tree, goals)
    }

    constructor (localAsn: nat)
      ensures Valid() && this.localAsn == localAsn && Shown(tree) == loaded == map[]
    {
      this.localAsn := localAsn;
      tree, loaded := Tree(map[], None), map[];
      goals, trace := map[Empty := map[]], [];
    }

    /** Every state since the trace had length `n` is one in which a crash does no harm: the service can
        start from it, and the link shows the old or the new configuration, never a part of one. */
    ghost predicate Harmless(n: nat, prior: Generation, desired: Generation, f: Faults)
      reads this
    {
      n <= |trace| && forall i :: n <= i < |trace| ==>
                Sound(trace[i], goals) && Visible(Shown(trace[i]), prior, desired, f)
    }

    /** One atomic file system call. */
    method Step(t: Tree)
      modifies this`tree, this`trace
      ensures tree == t && trace == old(trace) + [t]
    {
      tree := t;
      trace := trace + [t];
    }

    /** `atomic_switch_current` */
    method Switch(target: Name, out: Outcome) returns (ok: bool)
      requires Valid() && target in tree.dirs && target in goals && tree.dirs[target] == goals[target]
      modifies this`tree, this`trace
      ensures ok == out.Succeed?
      ensures tree == if out.Fail? then old(tree) else old(tree).(current := Some(target))
      ensures trace == if out.Fail? then old(trace) else old(trace) + [tree]
      ensures Valid()
    {
      if !out.Fail? {
        Step(tree.(current := Some(target)));
      }
      return out.Succeed?;
    }

    /** `ensure_bird_layout` */
    method EnsureLayout(f: Faults) returns (ok: bool)
      requires Valid()
      modifies this`tree, this`trace
      ensures Valid() && Shown(tree) == Shown(old(tree))
      ensures ok == (f.layout && (old(tree).current.None? ==> f.point.Succeed?))
      ensures ok ==> tree.current.Some?
      ensures old(tree).current.Some? ==> tree.current == old(tree).current
      ensures old(tree).dirs.Keys <= tree.dirs.Keys <= old(tree).dirs.Keys + {Empty}
      ensures old(trace) <= trace
      ensures forall i :: |old(trace)| <= i < |trace| ==>
                            Sound(trace[i], goals) && Shown(trace[i]) == Shown(tree)
                                      && trace[i].dirs.Keys <= tree.dirs.Keys
    {
      if !f.layout { return false; }
      if Empty !in tree.dirs {
        Step(tree.(dirs := tree.dirs[Empty := map[]]));
      }
      if tree.current.None? {
        ok := Switch(Empty, f.point);
        return;
      }
      return true;
    }

    /** The files wanted for a row list. */
    method Render(peers: map<nat, Peer>) returns (ok: bool, desired: Generation)
      ensures ok <==> !BadName(peers)
      ensures ok ==> desired == DesiredGeneration(localAsn, peers)
      // Field by field.
      ensures ok ==> ShowsRows(desired, localAsn, peers)
    {
      desired := map[];
      DesiredShowsRows(localAsn, peers);
      var rest := peers.Keys;
      while rest != {}
        invariant rest <= peers.Keys
        invariant forall n :: n in peers && n !in rest && Wanted(peers[n]) ==> peers[n].iface == n
        invariant desired == map n | n in peers && n !in rest && Wanted(peers[n]) :: FragmentOf(localAsn, peers[n])
      {
        var n :| n in rest;
        rest := rest - {n};
        if Wanted(peers[n]) {
          if peers[n].iface != n {
            assert n in WantedKeys(peers);
            return false, map[];
          }
          desired := desired[n := FragmentOf(localAsn, peers[n])];
        }
      }
      return true, desired;
    }

    /** Writes every file into the new directory, one at a time. */
    method WriteFiles(name: Name, desired: Generation, f: Faults) returns (ok: bool)
      requires Valid() && name in tree.dirs && tree.current != Some(name) && tree.dirs[name] == map[]
      requires name != Empty && name in goals
      modifies this`tree, this`trace
      ensures ok <==> f.writes >= |desired.Keys|
      ensures Valid() && tree.current == old(tree).current && name in tree.dirs
      ensures tree.dirs - {name} == old(tree).dirs - {name}
      ensures ok ==> tree.dirs[name] == desired
      ensures old(trace) <= trace
      ensures forall i :: |old(trace)| <= i < |trace| ==>
                            Sound(trace[i], goals) && Shown(trace[i]) == Shown(old(tree))
    {
      var rest, i := desired.Keys, 0;
      while rest != {}
        invariant rest <= desired.Keys && i + |rest| == |desired.Keys| && i <= f.writes
        invariant Valid() && tree.current == old(tree).current && name in tree.dirs
        invariant tree.dirs - {name} == old(tree).dirs - {name}
        invariant tree.dirs[name] == map n | n in desired && n !in rest :: desired[n]
        invariant old(trace) <= trace
        invariant forall i :: |old(trace)| <= i < |trace| ==>
                                Sound(trace[i], goals) && Shown(trace[i]) == Shown(old(tree))
        invariant Shown(tree) == Shown(old(tree))
      {
        if i == f.writes { return false; }
        var n :| n in rest;
        Step(tree.(dirs := tree.dirs[name := tree.dirs[name][n := desired[n]]]));
        rest, i := rest - {n}, i + 1;
      }
      return true;
    }

    /** `remove_old_generations`: everything but the empty and the current directory goes, as far as it can. */
    method RemoveOld(keep: Name, left: map<Name, Generation>)
      requires Valid() && tree.current == Some(keep)
      modifies this`tree, this`trace
      ensures Valid() && tree.current == old(tree).current && Shown(tree) == Shown(old(tree))
      ensures keep in tree.dirs && tree.dirs[keep] == old(tree).dirs[keep]
      ensures forall n :: n in tree.dirs ==> n in old(tree).dirs && (n == Empty || n == keep || n in left)
      ensures old(trace) <= trace
      ensures forall i :: |old(trace)| <= i < |trace| ==>
                            Sound(trace[i], goals) && Shown(trace[i]) == Shown(old(tree))
    {
      var rest := tree.dirs.Keys;
      while rest != {}
        invariant rest <= old(tree).dirs.Keys && Valid() && tree.current == old(tree).current
        invariant keep in tree.dirs && tree.dirs[keep] == old(tree).dirs[keep]
        invariant forall n :: n in tree.dirs ==>
                                n in old(tree).dirs && (n in rest || n == Empty || n == keep || n in left)
        invariant old(trace) <= trace
        invariant forall i :: |old(trace)| <= i < |trace| ==>
                                Sound(trace[i], goals) && Shown(trace[i]) == Shown(old(tree))
      {
        var n :| n in rest;
        rest := rest - {n};
        if n == Empty || n == keep || n !in tree.dirs { continue; }
        Step(tree.(dirs := if n in left then tree.dirs[n := left[n]] else tree.dirs - {n}));
      }
    }

    /** The link goes back to where it pointed; if that could not be read, it is removed. */
    method Restore(prior: Option<Name>, out: Outcome) returns (ok: bool)
      requires Valid()
      requires prior.Some? ==> prior.value in tree.dirs && prior.value in goals
      requires prior.Some? ==> tree.dirs[prior.value] == goals[prior.value]
      modifies this`tree, this`trace
      ensures Valid() && tree == if out.Fail? then old(tree) else old(tree).(current := prior)
      ensures trace == if out.Fail? then old(trace) else old(trace) + [tree]
      ensures prior.Some? ==> ok == out.Succeed?
      ensures prior.None? ==> ok == !out.Fail?
    {
      match prior {
        case Some(name) => ok := Switch(name, out);
        case None =>
          if !out.Fail? {
            Step(tree.(current := None));
          }
          ok := !out.Fail?;
      }
    }

    /** `reload_bird`. A refused reload leaves the daemon as it was. */
    method Reload(accepted: bool) returns (ok: bool)
      modifies this`loaded
      ensures ok == accepted && loaded == if accepted then Shown(tree) else old(loaded)
    {
      if accepted { loaded := Shown(tree); }
      return accepted;
    }

    /** A complete new generation, not yet pointed to. */
    method Build(desired: Generation, suffix: nat, f: Faults) returns (ok: bool)
      requires Valid()
      modifies this`tree, this`goals, this`trace
      ensures ok <==> f.create && Generated(suffix) !in old(tree).dirs && f.writes >= |desired.Keys| && f.flush
      ensures Valid() && tree.current == old(tree).current && Shown(tree) == Shown(old(tree))
      ensures var name := Generated(suffix);
              ok ==> name in tree.dirs && name in goals && tree.dirs[name] == goals[name] == desired
      ensures forall t: Tree :: Sound(t, old(goals)) && t.dirs.Keys <= old(tree).dirs.Keys ==> Sound(t, goals)
      ensures old(trace) <= trace
      ensures forall i :: |old(trace)| <= i < |trace| ==> Sound(trace[i], goals) && Shown(trace[i]) == Shown(tree)
    {
      var name := Generated(suffix);
      if !f.create || name in tree.dirs { return false; }
      goals := goals[name := desired];
      Step(tree.(dirs := tree.dirs[name := map[]]));
      ok := WriteFiles(name, desired, f);
      ok := ok && f.flush;
    }

    /** The switch, the reload, and the way back if the daemon refuses. */
    method Commit(name: Name, f: Faults) returns (ok: bool)
      requires Valid() && tree.current.Some? && name in tree.dirs && name in goals && tree.dirs[name] == goals[name]
      modifies this`tree, this`loaded, this`trace
      ensures Valid() && old(trace) <= trace
      ensures Harmless(|old(trace)|, Shown(old(tree)), old(tree).dirs[name], f)
      ensures ok <==> f.switched.Succeed? && f.reload
      ensures ok ==> Shown(tree) == loaded == old(tree).dirs[name]
      ensures ok ==> OnlyGeneration(tree, name, f)
      ensures !ok ==> Shown(tree) == if Undone(f) then Shown(old(tree))
                                     else if f.switched.FailAfter? || f.restore.Fail? then old(tree).dirs[name]
                                     else map[]
      ensures !ok && Undone(f) && old(loaded) == Shown(old(tree)) ==> loaded == Shown(tree)
      ensures !ok && !Undone(f) && f.switched.Succeed? && !f.restore.Fail? ==>
                loaded == if f.again then map[] else old(loaded)
    {
      var prior := if f.peek then tree.current else None;
      ok := Switch(name, f.switched);
      if !ok { return; }
      ok := Reload(f.reload);
      if ok {
        RemoveOld(name, f.left);
        return;
      }
      ok := Restore(prior, f.restore);
      if ok { var _ := Reload(f.again); }
      return false;
    }

    /** The part of a synchronisation for files that differ. */
    method Replace(desired: Generation, suffix: nat, f: Faults) returns (ok: bool)
      requires Valid() && tree.current.Some?
      modifies this`tree, this`loaded, this`goals, this`trace
      ensures Valid() && old(trace) <= trace
      ensures Harmless(|old(trace)|, Shown(old(tree)), desired, f)
      ensures forall t: Tree :: Sound(t, old(goals)) && t.dirs.Keys <= old(tree).dirs.Keys ==> Sound(t, goals)
      ensures ok <==> Buildable(old(tree), desired, suffix, f) && f.switched.Succeed? && f.reload
      ensures ok ==> Shown(tree) == loaded == desired && OnlyGeneration(tree, Generated(suffix), f)
      ensures !Buildable(old(tree), desired, suffix, f) ==> Shown(tree) == Shown(old(tree)) && loaded == old(loaded)
      ensures !ok && Buildable(old(tree), desired, suffix, f) ==>
                Shown(tree) == if Undone(f) then Shown(old(tree))
                               else if f.switched.FailAfter? || f.restore.Fail? then desired
                               else map[]
      ensures !ok && Undone(f) && old(loaded) == Shown(old(tree)) ==> loaded == Shown(tree)
      ensures !ok && Buildable(old(tree), desired, suffix, f) && !Undone(f)
              && f.switched.Succeed? && !f.restore.Fail? ==>
                loaded == if f.again then map[] else old(loaded)
    {
      ok := Build(desired, suffix, f);
      if ok {
        ok := Commit(Generated(suffix), f);
      }
    }

    /** `sync_bird_configs_for`, for the row list `peers`, a clock reading and the way its calls end. */
    method Sync(peers: map<nat, Peer>, force: bool, suffix: nat, f: Faults) returns (ok: bool)
      requires Valid()
      modifies this`tree, this`loaded, this`goals, this`trace
      ensures Valid() && old(trace) <= trace
      // Every crash point is harmless.
      ensures Harmless(|old(trace)|, Shown(old(tree)), DesiredGeneration(localAsn, peers), f)
      // Exactly when it succeeds.
      ensures ok <==>
              if Comparable(old(tree), peers, f) && Shown(old(tree)) == DesiredGeneration(localAsn, peers)
              then force ==> f.reload
              else Prepared(old(tree), peers, suffix, f) && f.switched.Succeed? && f.reload
      // Success shows the wanted configuration, and a daemon that was in step still is.
      ensures ok ==> Shown(tree) == DesiredGeneration(localAsn, peers)
      // After a switch the older generations are gone, as far as they can be removed.
      ensures ok && Shown(old(tree)) != Shown(tree) ==> OnlyGeneration(tree, Generated(suffix), f)
      ensures ok && (force || old(loaded) == Shown(old(tree))) ==> loaded == DesiredGeneration(localAsn, peers)
      // Failure shows what was shown before if the switch has been undone. Otherwise the refused
      // configuration stays, or, when the old link could not be read, none at all.
      ensures !ok && Undone(f) ==> Shown(tree) == Shown(old(tree))
      ensures !ok && !Undone(f) && Prepared(old(tree), peers, suffix, f)
              && Shown(old(tree)) != DesiredGeneration(localAsn, peers) ==>
                Shown(tree) ==
                (if f.switched.FailAfter? || f.restore.Fail? then DesiredGeneration(localAsn, peers) else map[])
      ensures !ok && !Undone(f) && Prepared(old(tree), peers, suffix, f)
              && Shown(old(tree)) != DesiredGeneration(localAsn, peers) && f.switched.Succeed? && !f.restore.Fail? ==>
                loaded == if f.again then map[] else old(loaded)
      // Failure before the switch changes neither.
      ensures !ok && !(Prepared(old(tree), peers, suffix, f)
                       && Shown(old(tree)) != DesiredGeneration(localAsn, peers)) ==>
                Shown(tree) == Shown(old(tree)) && loaded == old(loaded)
      // A daemon in step with the link before stays in step with it if the switch has been undone.
      ensures !ok && Undone(f) && old(loaded) == Shown(old(tree)) ==> loaded == Shown(tree)
    {
      ok := EnsureLayout(f);
      if !ok { return; }
      var desired;
      ok, desired := Render(peers);
      if !ok { return; }
      assert desired.Keys == WantedKeys(peers);
      if !f.read { return false; }
      if Shown(tree) == desired {
        if force { ok := Reload(f.reload); }
        return;
      }
      ok := Replace(desired, suffix, f);
    }
  }

  /** If the old link cannot be read, a refused configuration costs the working one: the link is
      removed and the second reload drops every session. */
  method UnreadableLink(s: Store, peers: map<nat, Peer>, suffix: nat, f: Faults)
    requires s.Valid() && Prepared(s.tree, peers, suffix, f) && s.loaded == Shown(s.tree)
    requires Shown(s.tree) != map[] && Shown(s.tree) != DesiredGeneration(s.localAsn, peers)
    requires f.switched.Succeed? && !f.reload && !f.peek && f.restore.Succeed? && f.again
    modifies s`tree, s`loaded, s`goals, s`trace
    ensures Shown(s.tree) == map[] && s.loaded == map[]
  {
    var _ := s.Sync(peers, false, suffix, f);
  }
}
