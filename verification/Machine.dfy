/** The running service as a state machine. Each operation is a thread that advances by one
    database statement, one external call or one lock acquisition at a time. */
module Machine {
  import opened Peers
  import opened World

  datatype Tid = Api(n: nat) | Reconciler | Ticker | Recovery

  datatype Task =
    | CreateTask(request: Request)
    | UpdateTask(change: Change)
    | DeleteTask(victim: Key)
    | ReconcileTask
    | TickTask
    | RecoverTask

  datatype Lock = PeerLock(key: Key) | PortLock | NftLock | BirdLock

  /** Calls inside `apply_wireguard`, `sync_bird_configs_for`, `delete_interface`, `sync_nft_ports_for`. */
  datatype Sub =
    | AddLink | SetLink | Configure | AddAddress
    | BirdList | BirdWait | BirdCompare | BirdPeek | BirdSwitch(prior: Option<Generation>)
    | BirdReload(prior: Option<Generation>) | BirdRestore(prior: Option<Generation>)
    | DropLink
    | NftList | NftWait | NftRun

  /** Where a shared procedure was called from. */
  datatype Site =
    | CreateApply | CreateNft | CompRemove | CompNft
    | UpdateApply | UpdateRestore
    | DeleteNft | DeleteRemove | DeleteReapply | DeleteRenft
    | ChangeApply | ChangeRemove | ChangeNft
    | TickNft
    | RvApply | RvNft | RvBird

  datatype Point =
    | WantPeer
    | CheckName | WantPort | TakeId | Probe(increment: nat) | Reserve(increment: nat) | Recheck(increment: nat)
    | CreateActivate | CompMark | CompErase
    | ReadOld | StoreDesired | UpdateActivate | CompStore | CompActivate
    | ReadVictim | MarkDeleting | UndeleteQuiet | UndeleteReapply | Erase
    | NextChange | ReadById | ChangeActivate | ChangeErase | DropChange
    | RvList | RvApplyNext | RvDropNext | RvScan | RvSweep | RvListChanges | RvPurge | RvEraseNext | RvActivateNext
    | In(sub: Sub, site: Site)

  datatype Thread = Thread(
    task: Task, point: Point, key: Key,
    target: Peer,                 // the peer handed to the procedure being run
    prior: Peer,                  // the row an update read first
    mark: nat,                    // the event that covers this thread's work
    found: bool,                  // the reconciler found the row
    snap: map<nat, Peer>,         // the row list read last
    ids: set<nat>, events: map<nat, Event>, names: set<nat>)  // what loops still have to visit

  datatype Cont = Go(t: Thread) | End | Die | Ready

  datatype Phase = Down | Recovering | Serving

  /** `pristine` records that no writer other than the service has changed a row. */
  datatype State = State(w: World, phase: Phase, threads: map<Tid, Thread>, pristine: bool)

  // ---- locks ----

  predicate ApiTask(task: Task) {
    task.CreateTask? || task.UpdateTask? || task.DeleteTask?
  }

  /** Between taking and releasing the peer lock. */
  predicate InCritical(t: Thread) {
    || (ApiTask(t.task) && t.point != WantPeer)
    || (t.task.ReconcileTask? && t.point != WantPeer && t.point != NextChange && t.point != DropChange)
  }

  predicate HoldsPort(t: Thread) {
    t.point.TakeId? || t.point.Probe? || t.point.Reserve? || t.point.Recheck?
  }

  predicate HoldsBird(t: Thread) {
    t.point.In? &&
    (t.point.sub.BirdCompare? || t.point.sub.BirdPeek? || t.point.sub.BirdSwitch? || t.point.sub.BirdReload?
     || t.point.sub.BirdRestore?)
  }

  predicate HoldsNft(t: Thread) {
    t.point.In? && t.point.sub.NftRun?
  }

  predicate Holds(t: Thread, lock: Lock) {
    match lock
    case PeerLock(key) => InCritical(t) && t.key == key
    case PortLock => HoldsPort(t)
    case BirdLock => HoldsBird(t)
    case NftLock => HoldsNft(t)
  }

  /** The lock the thread is waiting for, if any. */
  function Wants(t: Thread): Option<Lock> {
    match t.point
    case WantPeer => Some(PeerLock(t.key))
    case WantPort => Some(PortLock)
    case In(BirdWait, _) => Some(BirdLock)
    case In(NftWait, _) => Some(NftLock)
    case _ => None
  }

  ghost predicate Free(s: State, lock: Lock, tid: Tid) {
    forall u :: u in s.threads && u != tid ==> !Holds(s.threads[u], lock)
  }

  ghost predicate Runnable(s: State, tid: Tid) {
    tid in s.threads && (Wants(s.threads[tid]).Some? ==> Free(s, Wants(s.threads[tid]).value, tid))
  }

  // ---- procedures ----

  predicate RemoveSite(site: Site) {
    site == CompRemove || site == DeleteRemove || site == ChangeRemove
  }

  datatype Dest = To(p: Point) | Stop | Exit

  /** Where control goes when the procedure called at `site` returns. */
  function Returns(site: Site, ok: bool, status: Status, found: bool): Dest {
    match site
    case CreateApply => To(if ok then In(NftList, CreateNft) else CompMark)
    case CreateNft => To(if ok then CreateActivate else CompMark)
    case CompRemove => To(if ok then CompErase else In(NftList, CompNft))
    case CompNft => Stop
    case UpdateApply => To(if ok then UpdateActivate else CompStore)
    case UpdateRestore => if ok then To(CompActivate) else Stop
    case DeleteNft => To(if ok then In(BirdList, DeleteRemove) else UndeleteQuiet)
    case DeleteRemove => To(if ok then Erase else UndeleteReapply)
    case DeleteReapply => if ok then To(In(NftList, DeleteRenft)) else Stop
    case DeleteRenft => Stop
    case ChangeApply =>
      To(if !ok then NextChange else if status != Active then ChangeActivate else In(NftList, ChangeNft))
    case ChangeRemove =>
      To(if !ok then NextChange else if found && status == Deleting then ChangeErase else In(NftList, ChangeNft))
    case ChangeNft => To(if ok then DropChange else NextChange)
    case TickNft => Stop
    case RvApply => if ok then To(RvApplyNext) else Exit
    case RvNft => if ok then To(In(BirdWait, RvBird)) else Exit
    case RvBird => if ok then To(RvDropNext) else Exit
  }

  function Return(t: Thread, site: Site, ok: bool): Cont {
    match Returns(site, ok, t.target.status, t.found)
    case To(p) => Go(t.(point := p, ids := if site == RvBird then UnwantedIds(t.snap) else t.ids))
    case Stop => End
    case Exit => Die
  }

  function WantedIds(rows: map<nat, Peer>): set<nat> {
    set n | n in rows && Wanted(rows[n])
  }

  function UnwantedIds(rows: map<nat, Peer>): set<nat> {
    set n | n in rows && !Wanted(rows[n])
  }

  function DeletingIds(rows: map<nat, Peer>): set<nat> {
    set n | n in rows && rows[n].status == Deleting
  }

  predicate BadIfaceName(rows: map<nat, Peer>) {
    exists n :: n in rows && Wanted(rows[n]) && rows[n].iface != rows[n].id
  }

  /** After the BIRD configuration is in place. */
  function BirdDone(t: Thread, site: Site): Cont {
    if RemoveSite(site) then Go(t.(point := In(DropLink, site))) else Return(t, site, true)
  }

  /** An interface call with effect `eff` that continues at `next` when it succeeds. */
  function Link(t: Thread, site: Site, out: Outcome, eff: Eff, next: Cont): (Eff, Cont) {
    match out
    case Succeed => (eff, next)
    case Fail => (Skip, Return(t, site, false))
    case FailAfter => (eff, Return(t, site, false))
  }

  /** `ensure_wg_interface`, `configure_peer`, `configure_local_address`, `delete_interface`. */
  function RunLink(w: World, t: Thread, sub: Sub, site: Site, out: Outcome): (Eff, Cont) {
    var name := t.target.iface;
    match sub
    case AddLink =>
      if name in w.ifaces then
        (Skip, if out.Succeed? then Go(t.(point := In(SetLink, site))) else Return(t, site, false))
      else Link(t, site, out, SetIface(name, BARE_LINK), Go(t.(point := In(SetLink, site))))
    case DropLink => Link(t, site, out, DropIface(name), Return(t, site, true))
    case _ =>
      if name !in w.ifaces then (Skip, Return(t, site, false))
      else Link(t, site, out, SetIface(name, Tuned(w.ifaces[name], t.target, sub)), Go(t.(point := LinkNext(sub,
                site))))
  }

  function Tuned(i: Iface, p: Peer, sub: Sub): Iface {
    match sub
    case SetLink => i.(mtu := Some(p.mtu), alias := Some(p.id))
    case Configure => i.(wg := Some(WgConf(p.port, p.pubkey)))
    case _ => i.(addrs := i.addrs + {p.localLl})
  }

  function LinkNext(sub: Sub, site: Site): Point {
    match sub
    case SetLink => In(Configure, site)
    case Configure => In(AddAddress, site)
    case _ => if site == RvApply then RvApplyNext else In(BirdList, site)
  }

  /** `ensure_bird_layout` and `current_generation_matches`. A missing `current` is first pointed
      at the empty generation. */
  function Compared(t: Thread, site: Site, out: Outcome, missing: bool, bad: bool, same: bool): (Eff, Cont) {
    if out.Fail? then (Skip, Return(t, site, false))
    else if missing then
      (SetCurrent(Some(map[])),
       if out.FailAfter? then Return(t, site, false) else Go(t.(point := In(BirdCompare, site))))
    else if out.FailAfter? || bad then (Skip, Return(t, site, false))
    else if same then (Skip, BirdDone(t, site))
    else (Skip, Go(t.(point := In(BirdPeek, site))))
  }

  /** `sync_bird_configs` and `sync_bird_configs_for`. */
  function RunBird(w: World, t: Thread, sub: Sub, site: Site, out: Outcome): (Eff, Cont) {
    match sub
    case BirdList =>
      (Skip, if out.Succeed? then Go(t.(point := In(BirdWait, site), snap := w.rows)) else Return(t, site, false))
    case BirdWait => (Skip, Go(t.(point := In(BirdCompare, site))))
    case BirdCompare =>
      Compared(t, site, out, w.current.None?, BadIfaceName(t.snap),
               w.current == Some(DesiredGeneration(w.localAsn, t.snap)))
    case BirdPeek =>
      (Skip, Go(t.(point := In(BirdSwitch(if out.Succeed? then w.current else None), site))))
    case BirdSwitch(prior) =>
      Link(t, site, out, SetCurrent(Some(DesiredGeneration(w.localAsn, t.snap))),
           Go(t.(point := In(BirdReload(prior), site))))
    case BirdReload(prior) =>
      (Skip, if out.Succeed? then BirdDone(t, site) else Go(t.(point := In(BirdRestore(prior), site))))
    case BirdRestore(prior) =>
      (if out.Fail? then Skip else SetCurrent(prior), Return(t, site, false))
    case _ => (Skip, Return(t, site, false))
  }

  /** `sync_nft_ports` and `sync_nft_ports_for`. */
  function RunNft(w: World, t: Thread, sub: Sub, site: Site, out: Outcome): (Eff, Cont) {
    match sub
    case NftList =>
      (Skip, if out.Succeed? then Go(t.(point := In(NftWait, site), snap := w.rows)) else Return(t, site, false))
    case NftWait => (Skip, Go(t.(point := In(NftRun, site))))
    case _ => Link(t, site, out, SetPorts(DesiredPorts(t.snap)), Return(t, site, true))
  }

  predicate BirdHasSnap(sub: Sub) {
    sub.BirdWait? || sub.BirdCompare? || sub.BirdPeek? || sub.BirdSwitch?
  }

  predicate BirdSub(sub: Sub) {
    BirdHasSnap(sub) || sub.BirdList? || sub.BirdReload? || sub.BirdRestore?
  }

  predicate NftSub(sub: Sub) {
    sub.NftList? || sub.NftWait? || sub.NftRun?
  }

  function RunSub(w: World, t: Thread, sub: Sub, site: Site, out: Outcome): (Eff, Cont) {
    if BirdSub(sub) then RunBird(w, t, sub, site, out)
    else if NftSub(sub) then RunNft(w, t, sub, site, out)
    else RunLink(w, t, sub, site, out)
  }

  // ---- operations ----

  /** A status write. The row may have been deleted; then nothing is written. */
  function StatusWrite(w: World, id: nat, status: Status, out: Outcome): Eff {
    if id in w.rows && !out.Fail? then SetRow(Update, w.rows[id].(status := status)) else Skip
  }

  function EraseWrite(w: World, id: nat, out: Outcome): Eff {
    if id in w.rows && !out.Fail? then EraseRow(id) else Skip
  }

  /** The write succeeded and reported that one row changed. */
  predicate Wrote(w: World, id: nat, out: Outcome) {
    id in w.rows && out.Succeed?
  }

  function CreateRequest(t: Thread): Request {
    if t.task.CreateTask? then t.task.request else Request(t.key, "", None, None, None)
  }

  ghost function RunCreate(w: World, t: Thread, out: Outcome): (Eff, Cont)
    requires w.localAsn < U32 && CreateRequest(t).key.asn < U32
  {
    match t.point
    case CheckName =>
      (Skip, if out.Succeed? && !NameTaken(w, t.key) then Go(t.(point := WantPort)) else End)
    case WantPort => (Skip, Go(t.(point := TakeId)))
    case TakeId =>
      if out.Fail? then (Skip, End)
      else if out.FailAfter? || w.nextId >= U32 then (Issue(t.key), End)
      else
        (Issue(t.key), Go(t.(point := Probe(0), target := NewPeer(w.localAsn, w.nextId, CreateRequest(t), 0))))
    case Probe(k) =>
      if k >= 10_000 || !out.Succeed? then (Skip, End)
      else if PortInUse(w, CandidatePort(t.key.asn, k)) then (Skip, Go(t.(point := Probe(k + 1))))
      else (Skip, Go(t.(point := Reserve(k), target := t.target.(port := CandidatePort(t.key.asn, k)))))
    case Reserve(k) =>
      if Conflict(w, t.target) then (Skip, if out.Succeed? then Go(t.(point := Recheck(k))) else End)
      else if t.key.asn == w.localAsn || out.Fail? then (Skip, End)  // test mode rolls back
      else
        (SetRow(Insert, t.target),
         if out.FailAfter? then End else Go(t.(point := In(AddLink, CreateApply), mark := w.nextEvent)))
    case Recheck(k) =>
      (Skip, if out.Succeed? && !NameTaken(w, t.key) then Go(t.(point := Probe(k + 1))) else End)
    case CreateActivate =>
      (StatusWrite(w, t.target.id, Active, out),
       if Wrote(w, t.target.id, out) then End else Go(t.(point := CompMark)))
    case CompMark => (StatusWrite(w, t.target.id, Deleting, out), Go(t.(point := In(BirdList, CompRemove))))
    case CompErase => (EraseWrite(w, t.target.id, out), Go(t.(point := In(NftList, CompNft))))
    case _ => (Skip, End)
  }

  function CandidatePort(asn: nat, increment: nat): nat {
    20_000 + (asn % 10_000 + increment) % 10_000
  }

  ghost function RunUpdate(w: World, t: Thread, out: Outcome): (Eff, Cont)
    requires w.localAsn < U32 && (t.task.UpdateTask? ==> t.task.change.key.asn < U32)
  {
    match t.point
    case ReadOld =>
      var row := FindByKey(w, t.key);
      if out.Succeed? && row.Some? && row.value.status != Deleting && t.task.UpdateTask? then
        (Skip, Go(t.(point := StoreDesired, prior := row.value,
                     target := ChangedPeer(w.localAsn, row.value, t.task.change))))
      else (Skip, End)
    case StoreDesired =>
      if out.Fail? || t.target.id !in w.rows || PortTaken(w, t.target.port, t.target.id) then (Skip, End)
      else
        (SetRow(Update, Stored(w.rows[t.target.id], t.target)),
         if out.FailAfter? then End else Go(t.(point := In(AddLink, UpdateApply), mark := w.nextEvent)))
    case UpdateActivate => (StatusWrite(w, t.target.id, Active, out), End)
    case CompStore =>
      if t.prior.id !in w.rows then
        (Skip, if out.Succeed? then Go(t.(point := In(AddLink, UpdateRestore), target := t.prior)) else End)
      else if out.Fail? || PortTaken(w, t.prior.port, t.prior.id) then (Skip, End)
      else
        (SetRow(Update, Stored(w.rows[t.prior.id], t.prior)),
         if out.FailAfter? then End else Go(t.(point := In(AddLink, UpdateRestore), target := t.prior)))
    case CompActivate => (StatusWrite(w, t.target.id, Active, out), End)
    case _ => (Skip, End)
  }

  ghost function RunDelete(w: World, t: Thread, out: Outcome): (Eff, Cont) {
    match t.point
    case ReadVictim =>
      var row := FindByKey(w, t.key);
      (Skip, if out.Succeed? && row.Some? then Go(t.(point := MarkDeleting, target := row.value)) else End)
    case MarkDeleting =>
      (StatusWrite(w, t.target.id, Deleting, out),
       if Wrote(w, t.target.id, out) then Go(t.(point := In(NftList, DeleteNft), mark := w.nextEvent)) else End)
    case UndeleteQuiet => (StatusWrite(w, t.target.id, Active, out), End)
    case UndeleteReapply =>
      // `is_ok` also accepts a write that found no row.
      (StatusWrite(w, t.target.id, Active, out),
       if out.Succeed? then Go(t.(point := In(AddLink, DeleteReapply))) else End)
    case Erase => (EraseWrite(w, t.target.id, out), End)
    case _ => (Skip, End)
  }

  ghost function Least(m: map<nat, Event>): (e: nat)
    requires m != map[]
    ensures e in m && forall k :: k in m ==> e <= k
    decreases |m|
  {
    var k :| k in m;
    var rest := m - {k};
    if rest == map[] then
      assert forall j :: j in m ==> j == k || j in rest;
      k
    else
      var least := Least(rest);
      assert forall j :: j in m ==> j == k || j in rest;
      if k < least then k else least
  }

  /** The order in which recovery visits rows and interfaces does not matter. */
  ghost function Pick(ids: set<nat>): (n: nat)
    requires ids != {}
    ensures n in ids
  {
    var n :| n in ids;
    n
  }

  ghost function RunReconcile(w: World, t: Thread, out: Outcome): (Eff, Cont) {
    match t.point
    case NextChange =>
      if t.events == map[] then (Skip, End)
      else
        var e := Least(t.events);
        (Skip, Go(t.(point := WantPeer, key := KeyOf(t.events[e].peer), target := t.events[e].peer, mark := e,
                     found := false, events := t.events - {e})))
    case ReadById =>
      if !out.Succeed? then (Skip, Go(t.(point := NextChange)))
      else if t.target.id in w.rows then
        var row := w.rows[t.target.id];
        (Skip, Go(t.(target := row, found := true,
                     point := if Wanted(row) then In(AddLink, ChangeApply) else In(BirdList, ChangeRemove))))
      else (Skip, Go(t.(point := In(BirdList, ChangeRemove))))
    case ChangeActivate =>
      (StatusWrite(w, t.target.id, Active, out),
       Go(t.(point := if Wrote(w, t.target.id, out) then In(NftList, ChangeNft) else NextChange)))
    case ChangeErase =>
      (EraseWrite(w, t.target.id, out),
       Go(t.(point := if Wrote(w, t.target.id, out) then In(NftList, ChangeNft) else NextChange)))
    case DropChange => (if out.Fail? then Skip else DropEvent(t.mark), Go(t.(point := NextChange)))
    case _ => (Skip, End)
  }

  /** Interfaces whose alias marks them as the service's own. */
  function ManagedIfaces(w: World): set<nat> {
    set i | i in w.ifaces && w.ifaces[i].alias.Some?
  }

  function WantedIfaces(rows: map<nat, Peer>): set<nat> {
    set n | n in rows && Wanted(rows[n]) :: rows[n].iface
  }

  /** A call inside a recovery loop; any error ends the process. */
  function Loop(out: Outcome, eff: Eff, t: Thread): (Eff, Cont) {
    match out
    case Succeed => (eff, Go(t))
    case Fail => (Skip, Die)
    case FailAfter => (eff, Die)
  }

  ghost function RunRecover(w: World, t: Thread, out: Outcome): (Eff, Cont) {
    match t.point
    case RvList =>
      (Skip, if out.Succeed? then Go(t.(point := RvApplyNext, snap := w.rows, ids := WantedIds(w.rows))) else Die)
    case RvApplyNext =>
      if t.ids == {} then (Skip, Go(t.(point := In(NftWait, RvNft))))
      else
        var n := Pick(t.ids);
        (Skip, if n in t.snap then Go(t.(point := In(AddLink, RvApply), target := t.snap[n], ids := t.ids - {n}))
               else Die)
    case RvDropNext =>
      if t.ids == {} then (Skip, Go(t.(point := RvScan)))
      else
        var n := Pick(t.ids);
        if n in t.snap then Loop(out, DropIface(t.snap[n].iface), t.(ids := t.ids - {n})) else (Skip, Die)
    case RvScan =>
      (Skip, if out.Succeed? then Go(t.(point := RvSweep, names := ManagedIfaces(w) - WantedIfaces(t.snap))) else Die)
    case RvSweep =>
      if t.names == {} then (Skip, Go(t.(point := RvListChanges)))
      else
        var name := Pick(t.names);
        Loop(out, DropIface(name), t.(names := t.names - {name}))
    case RvListChanges => (Skip, if out.Succeed? then Go(t.(point := RvPurge, events := w.outbox)) else Die)
    case RvPurge =>
      if t.events == map[] then (Skip, Go(t.(point := RvEraseNext, ids := DeletingIds(t.snap))))
      else
        var e := Least(t.events);
        var v := t.events[e];
        Loop(out,
             if v.op == Delete && v.peer.id !in w.rows && v.peer.iface == v.peer.id
             then DropIface(v.peer.iface) else Skip,
             t.(events := t.events - {e}))
    case RvEraseNext =>
      if t.ids == {} then (Skip, Go(t.(point := RvActivateNext, ids := WantedIds(t.snap))))
      else
        var n := Pick(t.ids);
        if n in w.rows then Loop(out, EraseRow(n), t.(ids := t.ids - {n})) else (Skip, Die)
    case RvActivateNext =>
      if t.ids == {} then (Skip, Ready)
      else
        var n := Pick(t.ids);
        if n in w.rows
        then Loop(out, SetRow(Update, w.rows[n].(status := Active)), t.(ids := t.ids - {n}))
        else (Skip, Die)
    case _ => (Skip, Die)
  }

  predicate ValidTask(task: Task) {
    match task
    case CreateTask(r) => r.key.asn < U32 && (r.linkLocal.Some? ==> r.linkLocal.value.0 != r.linkLocal.value.1)
    case UpdateTask(c) => c.key.asn < U32 && (c.linkLocal.Some? ==> c.linkLocal.value.0 != c.linkLocal.value.1)
    case _ => true
  }

  function TaskKey(task: Task): Key {
    match task
    case CreateTask(r) => r.key
    case UpdateTask(c) => c.key
    case DeleteTask(k) => k
    case _ => Key(0, "")
  }

  function Entry(task: Task): Point {
    match task
    case CreateTask(_) => CheckName
    case UpdateTask(_) => ReadOld
    case DeleteTask(_) => ReadVictim
    case _ => ReadById
  }

  /** One atomic action of a thread: its effect on the world and where it continues. */
  ghost function Micro(w: World, t: Thread, out: Outcome): (Eff, Cont)
    requires w.localAsn < U32 && ValidTask(t.task)
  {
    match t.point
    case WantPeer => (Skip, Go(t.(point := Entry(t.task))))
    case In(sub, site) => RunSub(w, t, sub, site, out)
    case _ =>
      match t.task
      case CreateTask(_) => RunCreate(w, t, out)
      case UpdateTask(_) => RunUpdate(w, t, out)
      case DeleteTask(_) => RunDelete(w, t, out)
      case ReconcileTask => RunReconcile(w, t, out)
      case TickTask => (Skip, End)
      case RecoverTask => RunRecover(w, t, out)
  }

  // ---- system steps ----

  datatype Step =
    | Run(tid: Tid, out: Outcome)
    | Submit(n: nat, task: Task)
    | StartReconcile
    | StartTick
    | Cancel(n: nat)          // the client went away and the request future was dropped
    | Crash
    | Reboot                  // also clears the kernel interfaces, `/run` and the nftables set
    | Boot
    | OutsideDraw(key: Key)   // another writer takes an id from the sequence
    | OutsideInsert(p: Peer)
    | OutsideUpdate(p: Peer)
    | OutsideDelete(id: nat)
    | OutsideDevices(ports: set<nat>)  // WireGuard devices that are not the service's come and go

  const NOBODY := Peer(0, "", 0, 0, "", None, [], [], Disabled, 0, 0)

  function NewThread(task: Task, point: Point): Thread {
    Thread(task, point, TaskKey(task), NOBODY, NOBODY, 0, false, map[], {}, map[], {})
  }

  ghost predicate Enabled(s: State, step: Step) {
    match step
    case Run(tid, _) =>
      Runnable(s, tid) && s.w.localAsn < U32 && ValidTask(s.threads[tid].task)
    case Submit(n, task) => s.phase == Serving && Api(n) !in s.threads && ApiTask(task) && ValidTask(task)
    case StartReconcile => s.phase == Serving && Reconciler !in s.threads
    case StartTick => s.phase == Serving && Ticker !in s.threads
    case Cancel(n) => Api(n) in s.threads
    case Crash => true
    case Reboot => true
    case Boot => s.phase == Down
    case OutsideDraw(_) => true
    case OutsideInsert(p) =>
      // Inserted rows carry an id that no row has had, and the matching interface name.
      p.id !in s.w.used && p.id in s.w.keys && s.w.keys[p.id] == KeyOf(p) && p.iface == p.id && !Conflict(s.w, p)
    case OutsideUpdate(p) =>
      // Identity columns are never rewritten.
      p.id in s.w.rows && KeyOf(p) == KeyOf(s.w.rows[p.id]) && p.iface == s.w.rows[p.id].iface
      && !PortTaken(s.w, p.port, p.id)
    case OutsideDelete(id) => id in s.w.rows
    case OutsideDevices(_) => true
  }

  function Continue(s: State, tid: Tid, w: World, k: Cont): State {
    match k
    case Go(t) => s.(w := w, threads := s.threads[tid := t])
    case End => s.(w := w, threads := s.threads - {tid})
    case Die => s.(w := w, threads := map[], phase := Down)
    case Ready => s.(w := w, threads := s.threads - {tid}, phase := Serving)
  }

  ghost function Exec(s: State, step: Step): State
    requires Enabled(s, step)
  {
    match step
    case Run(tid, out) =>
      var (eff, k) := Micro(s.w, s.threads[tid], out);
      Continue(s, tid, Apply(s.w, eff), k)
    case Submit(n, task) => s.(threads := s.threads[Api(n) := NewThread(task, WantPeer)])
    case StartReconcile =>
      s.(threads := s.threads[Reconciler := NewThread(ReconcileTask, NextChange).(events := s.w.outbox)])
    case StartTick => s.(threads := s.threads[Ticker := NewThread(TickTask, In(NftList, TickNft))])
    case Cancel(n) => s.(threads := s.threads - {Api(n)})
    case Crash => s.(threads := map[], phase := Down)
    case Reboot =>
      s.(threads := map[], phase := Down, w := s.w.(ifaces := map[], current := None, ports := {}))
    case Boot => s.(threads := map[Recovery := NewThread(RecoverTask, RvList)], phase := Recovering)
    case OutsideDraw(key) => s.(w := Apply(s.w, Issue(key)))
    case OutsideInsert(p) => s.(w := Apply(s.w, SetRow(Insert, p)), pristine := false)
    case OutsideUpdate(p) => s.(w := Apply(s.w, SetRow(Update, p)), pristine := false)
    case OutsideDelete(id) => s.(w := Apply(s.w, EraseRow(id)), pristine := false)
    case OutsideDevices(ports) => s.(w := Apply(s.w, SetDevices(ports)))
  }

  /** A stopped service with a well-formed table. The external systems hold whatever earlier runs
      left behind, as long as every interface has its row or a recorded deletion. */
  ghost predicate Leftover(s: State) {
    && s.phase == Down && s.threads == map[]
    && Ident(s.w) && Unique(s.w)
    && forall n :: n in s.w.ifaces ==>
         n in s.w.rows || exists e :: e in s.w.outbox && s.w.outbox[e].peer.id == n && s.w.outbox[e].op == Delete
  }

  /** A first start: empty tables and no interface of the service. */
  ghost predicate Fresh(s: State) {
    && s.phase == Down && s.threads == map[] && s.pristine
    && s.w.localAsn < U32
    && s.w.rows == map[] && s.w.outbox == map[] && s.w.keys == map[] && s.w.used == {}
    && s.w.ifaces == map[]
  }

  /** A finite sequence of states linked by enabled steps. */
  ghost predicate IsRun(states: seq<State>, steps: seq<Step>) {
    && |states| == |steps| + 1
    && forall i :: 0 <= i < |steps| ==> Enabled(states[i], steps[i]) && states[i + 1] == Exec(states[i], steps[i])
  }
}
