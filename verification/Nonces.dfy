/** The single-use nonce table and the requests that issue and spend nonces, interleaved in any way. */
module Nonces {
  import World

  /** A row of `auth_nonces`. */
  datatype Grant = Grant(asn: nat, expires: int)

  datatype Ticket = Ticket(nonce: string, grant: Grant)

  type Table = map<string, Grant>

  const TTL: int := 300
  const TRIES: nat := 4

  // ---- statements ----

  /** The DELETE before an insert. */
  function Purge(t: Table, now: int): Table {
    map n | n in t && t[n].expires >= now :: t[n]
  }

  /** A purge keeps exactly the nonces that are not past their expiry. */
  lemma PurgedExactly(t: Table, now: int)
    ensures forall n :: n in t ==> (n in Purge(t, now) <==> now <= t[n].expires)
    ensures forall n :: n in Purge(t, now) ==> n in t && Purge(t, now)[n] == t[n]
  {
  }

  /** The condition of the DELETE in `consume_nonce`. */
  predicate Matches(t: Table, k: Ticket, now: int) {
    k.nonce in t && t[k.nonce] == k.grant && k.grant.expires >= now
  }

  function TicketsOf(t: Table): set<Ticket> {
    set n | n in t :: Ticket(n, t[n])
  }

  function Tickets(t: Table): multiset<Ticket> {
    multiset(TicketsOf(t))
  }

  // ---- requests ----

  datatype Verdict = Issued | Exhausted | Expired | BadSignature | Busy | Unknown | Failed | Mismatch | Accepted
            | Abandoned

  datatype Point =
    | PurgeOld(tries: nat) | Insert(tries: nat)               // issue_challenge
    | CheckExpiry | CheckSignature | TakePermit | Consume | AskRegistry   // authorize_request
    | Finished(verdict: Verdict)

  /** `ticket` is what the request presents; for `issue_challenge` it is the last nonce drawn. */
  datatype Request = Request(issuing: bool, ticket: Ticket, point: Point)

  datatype Spend = Spend(spender: nat, ticket: Ticket, at: int)

  /** `issued`, `spends` and `purged` are the history of the table. */
  datatype State = State(
    table: Table, requests: map<nat, Request>, permits: nat,
    issued: multiset<Ticket>, spends: seq<Spend>, purged: multiset<Ticket>)

  /** What the outside decides in one action: the clock, a fresh nonce, whether checks pass, how a
      statement ends. */
  datatype Input = Input(now: int, nonce: string, good: bool, out: World.Outcome)

  predicate HoldsPermit(r: Request) {
    r.point.Consume? || r.point.AskRegistry?
  }

  function PermitHolders(s: State): set<nat> {
    set i | i in s.requests && HoldsPermit(s.requests[i])
  }

  // ---- one action ----

  /** What an action does to the table, with its history. */
  datatype Effect = Nothing | PurgeBefore(now: int) | Record(ticket: Ticket) | Use(spend: Spend)

  function Apply(s: State, e: Effect): State {
    match e
    case Nothing => s
    case PurgeBefore(now) =>
      s.(table := Purge(s.table, now), purged := s.purged + (Tickets(s.table) - Tickets(Purge(s.table, now))))
    case Record(k) => s.(table := s.table[k.nonce := k.grant], issued := s.issued + multiset{k})
    case Use(d) => s.(table := s.table - {d.ticket.nonce}, spends := s.spends + [d])
  }

  function Ends(r: Request, v: Verdict): Request {
    r.(point := Finished(v))
  }

  /** `issue_challenge`, whose tries each purge and then insert. */
  function Issue(s: State, r: Request, x: Input): (Effect, Request) {
    match r.point
    case PurgeOld(tries) =>
      (if x.out.Fail? then Nothing else PurgeBefore(x.now),
       if x.out.Succeed? then r.(point := Insert(tries)) else Ends(r, Failed))
    case Insert(tries) =>
      var k := Ticket(x.nonce, r.ticket.grant);
      if x.nonce in s.table then
        (Nothing, if !x.out.Succeed? then Ends(r, Failed)
                  else if tries + 1 < TRIES then r.(point := PurgeOld(tries + 1))
                  else Ends(r, Exhausted))
      else if x.out.Fail? then (Nothing, Ends(r, Failed))
      else (Record(k), Ends(r.(ticket := k), if x.out.Succeed? then Issued else Failed))
    case _ => (Nothing, r)
  }

  /** `authorize_request` of request i */
  function Check(s: State, i: nat, r: Request, x: Input): (Effect, Request) {
    match r.point
    case CheckExpiry =>
      (Nothing, if r.ticket.grant.expires < x.now then Ends(r, Expired) else r.(point := CheckSignature))
    case CheckSignature => (Nothing, if x.good then r.(point := TakePermit) else Ends(r, BadSignature))
    case TakePermit => (Nothing, if |PermitHolders(s)| < s.permits then r.(point := Consume) else Ends(r, Busy))
    case Consume =>
      if x.out.Fail? then (Nothing, Ends(r, Failed))
      else if !Matches(s.table, r.ticket, x.now) then (Nothing, Ends(r, if x.out.Succeed? then Unknown else Failed))
      else
        (Use(Spend(i, r.ticket, x.now)), if x.out.Succeed? then r.(point := AskRegistry) else Ends(r, Failed))
    case AskRegistry =>
      (Nothing, Ends(r, if !x.out.Succeed? then Failed else if x.good then Accepted else Mismatch))
    case _ => (Nothing, r)
  }

  function React(s: State, i: nat, x: Input): (Effect, Request)
    requires i in s.requests
  {
    var r := s.requests[i];
    if r.point.PurgeOld? || r.point.Insert? then Issue(s, r, x) else Check(s, i, r, x)
  }

  function Act(s: State, i: nat, x: Input): State
    requires i in s.requests
  {
    var (e, r) := React(s, i, x);
    Apply(s, e).(requests := s.requests[i := r])
  }

  datatype Step =
    | Challenge(i: nat, asn: nat, now: int)       // a client asks for a nonce
    | Authorize(i: nat, ticket: Ticket)           // a client presents a signed request
    | Proceed(i: nat, input: Input)
    | Drop(i: nat)                                // the client went away
    | Restart                                     // the process stops; the table stays

  predicate Enabled(s: State, step: Step) {
    match step
    case Challenge(i, _, _) => i !in s.requests
    case Authorize(i, _) => i !in s.requests
    case Proceed(i, _) => i in s.requests
    case Drop(i) => i in s.requests
    case Restart => true
  }

  function Abandon(r: Request): Request {
    if r.point.Finished? then r else r.(point := Finished(Abandoned))
  }

  function Exec(s: State, step: Step): State
    requires Enabled(s, step)
  {
    match step
    case Challenge(i, asn, now) =>
      s.(requests := s.requests[i := Request(true, Ticket("", Grant(asn, now + TTL)), PurgeOld(0))])
    case Authorize(i, k) => s.(requests := s.requests[i := Request(false, k, CheckExpiry)])
    case Proceed(i, x) => Act(s, i, x)
    case Drop(i) => s.(requests := s.requests[i := Abandon(s.requests[i])])
    case Restart => s.(requests := map i | i in s.requests :: Abandon(s.requests[i]))
  }

  /** No request in flight; the table holds what was issued before. */
  ghost predicate Start(s: State) {
    s.requests == map[] && s.spends == [] && s.purged == multiset{} && s.issued == Tickets(s.table)
  }

  ghost predicate IsRun(states: seq<State>, steps: seq<Step>) {
    && |states| == |steps| + 1
    && forall i :: 0 <= i < |steps| ==> Enabled(states[i], steps[i]) && states[i + 1] == Exec(states[i], steps[i])
  }

  // ---- what every run keeps ----

  function Spent(spends: seq<Spend>): multiset<Ticket> {
    if spends == [] then multiset{} else Spent(spends[..|spends| - 1]) + multiset{spends[|spends| - 1].ticket}
  }

  /** How many nonces request i has spent. */
  function CountOf(spends: seq<Spend>, i: nat): nat {
    if spends == [] then 0
    else CountOf(spends[..|spends| - 1], i) + if spends[|spends| - 1].spender == i then 1 else 0
  }

  ghost predicate Conserved(s: State) {
    s.issued == Tickets(s.table) + Spent(s.spends) + s.purged
  }

  /** The nonces a request at this point may have spent. */
  predicate CountFits(r: Request, n: nat) {
    if r.issuing then n == 0
    else match r.point
      case AskRegistry => n == 1
      case Finished(v) =>
        (v == Accepted || v == Mismatch ==> n == 1) && (v == Failed || v == Abandoned ==> n <= 1)
        && (v == Expired || v == BadSignature || v == Busy || v == Unknown ==> n == 0)
      case _ => n == 0
  }

  predicate StageFits(r: Request) {
    match r.point
    case PurgeOld(_) => r.issuing
    case Insert(_) => r.issuing
    case Finished(v) =>
      (v == Issued || v == Exhausted ==> r.issuing)
      && (v == Accepted || v == Mismatch || v == Expired || v == BadSignature || v == Busy || v == Unknown ==>
                !r.issuing)
    case _ => !r.issuing
  }

  ghost predicate Accounted(s: State) {
    && (forall i :: i in s.requests ==> StageFits(s.requests[i]) && CountFits(s.requests[i], CountOf(s.spends, i)))
    && (forall i :: i !in s.requests ==> CountOf(s.spends, i) == 0)
  }

  predicate SpendFits(s: State, d: Spend) {
    && d.spender in s.requests && !s.requests[d.spender].issuing && s.requests[d.spender].ticket == d.ticket
    && d.at <= d.ticket.grant.expires
  }

  ghost predicate Inv(s: State) {
    && Conserved(s) && Accounted(s)
    && (forall k :: 0 <= k < |s.spends| ==> SpendFits(s, s.spends[k]))
    && |PermitHolders(s)| <= s.permits
  }

  lemma SpentMore(spends: seq<Spend>, d: Spend)
    ensures Spent(spends + [d]) == Spent(spends) + multiset{d.ticket}
    ensures forall i :: CountOf(spends + [d], i) == CountOf(spends, i) + if d.spender == i then 1 else 0
  {
    assert (spends + [d])[..|spends|] == spends;
  }

  lemma TicketTaken(t: Table, k: Ticket)
    requires k.nonce in t && t[k.nonce] == k.grant
    ensures Tickets(t) == Tickets(t - {k.nonce}) + multiset{k}
  {
    var rest := t - {k.nonce};
    forall j ensures j in TicketsOf(t) <==> j in TicketsOf(rest) + {k} {
      if j in TicketsOf(t) && j != k {
        assert j.nonce in rest;
      }
    }
    assert TicketsOf(t) == TicketsOf(rest) + {k};
  }

  lemma TicketAdded(t: Table, k: Ticket)
    requires k.nonce !in t
    ensures Tickets(t[k.nonce := k.grant]) == Tickets(t) + multiset{k}
  {
    TicketTaken(t[k.nonce := k.grant], k);
    assert t[k.nonce := k.grant] - {k.nonce} == t;
  }

  lemma TicketsPurged(t: Table, now: int)
    ensures Tickets(Purge(t, now)) <= Tickets(t)
  {
    assert TicketsOf(Purge(t, now)) <= TicketsOf(t);
  }

  /** An effect fits the table and the request it is an effect of. */
  predicate Fits(s: State, i: nat, e: Effect, r: Request)
    requires i in s.requests
  {
    match e
    case Nothing => true
    case PurgeBefore(_) => true
    case Record(k) => k.nonce !in s.table
    case Use(d) =>
      d.spender == i && Matches(s.table, d.ticket, d.at) && r.ticket == d.ticket && s.requests[i].point.Consume?
  }

  lemma ReactFits(s: State, i: nat, x: Input)
    requires i in s.requests && StageFits(s.requests[i])
    ensures var (e, r) := React(s, i, x);
            && Fits(s, i, e, r) && StageFits(r) && r.issuing == s.requests[i].issuing
            && (!r.issuing ==> r.ticket == s.requests[i].ticket)
            && (HoldsPermit(r) ==> HoldsPermit(s.requests[i]) || |PermitHolders(s)| < s.permits)
            && forall n: nat :: CountFits(s.requests[i], n) ==> CountFits(r, n + if e.Use? then 1 else 0)
  {
  }

  lemma PurgeConserves(s: State, now: int)
    requires Conserved(s)
    ensures Conserved(Apply(s, PurgeBefore(now)))
  {
    TicketsPurged(s.table, now);
  }

  lemma RecordConserves(s: State, k: Ticket)
    requires Conserved(s) && k.nonce !in s.table
    ensures Conserved(Apply(s, Record(k)))
  {
    TicketAdded(s.table, k);
  }

  lemma UseConserves(s: State, d: Spend)
    requires Conserved(s) && d.ticket.nonce in s.table && s.table[d.ticket.nonce] == d.ticket.grant
    ensures Conserved(Apply(s, Use(d)))
  {
    TicketTaken(s.table, d.ticket);
    SpentMore(s.spends, d);
  }

  lemma EffectConserves(s: State, i: nat, e: Effect, r: Request)
    requires Conserved(s) && i in s.requests && Fits(s, i, e, r)
    ensures Conserved(Apply(s, e))
  {
    match e
    case Nothing =>
    case PurgeBefore(now) => PurgeConserves(s, now);
    case Record(k) => RecordConserves(s, k);
    case Use(d) => UseConserves(s, d);
  }

  lemma CountsAfter(s: State, e: Effect, i: nat, n: nat)
    requires e.Use? ==> e.spend.spender == i
    ensures CountOf(Apply(s, e).spends, n) == CountOf(s.spends, n) + if e.Use? && n == i then 1 else 0
  {
    if e.Use? { SpentMore(s.spends, e.spend); }
  }

  /** Request i becomes r, and spends a nonce if the effect is a use. */
  lemma AccountsAfter(s: State, s': State, i: nat, r: Request, uses: nat)
    requires Accounted(s) && i in s.requests && s'.requests == s.requests[i := r] && StageFits(r)
    requires CountFits(r, CountOf(s.spends, i) + uses)
    requires forall n :: CountOf(s'.spends, n) == CountOf(s.spends, n) + if n == i then uses else 0
    ensures Accounted(s')
  {
    forall n | n in s'.requests ensures StageFits(s'.requests[n]) && CountFits(s'.requests[n], CountOf(s'.spends, n)) {
      if n != i { assert n in s.requests && s'.requests[n] == s.requests[n]; }
    }
  }

  lemma ActAccounts(s: State, i: nat, x: Input)
    requires Accounted(s) && i in s.requests
    ensures Accounted(Act(s, i, x))
  {
    ReactFits(s, i, x);
    var (e, r) := React(s, i, x);
    forall n ensures CountOf(Act(s, i, x).spends, n) == CountOf(s.spends, n) + if e.Use? && n == i then 1 else 0 {
      CountsAfter(s, e, i, n);
    }
    AccountsAfter(s, Act(s, i, x), i, r, if e.Use? then 1 else 0);
  }

  lemma ActSpends(s: State, i: nat, x: Input)
    requires i in s.requests && StageFits(s.requests[i]) && forall k :: 0 <= k < |s.spends| ==>
              SpendFits(s, s.spends[k])
    ensures var s' := Act(s, i, x); forall k :: 0 <= k < |s'.spends| ==> SpendFits(s', s'.spends[k])
  {
    ReactFits(s, i, x);
    var (e, r) := React(s, i, x);
    var s' := Act(s, i, x);
    forall k | 0 <= k < |s'.spends| ensures SpendFits(s', s'.spends[k]) {
      if k < |s.spends| {
        assert SpendFits(s, s.spends[k]);
      } else {
        assert e.Use? && s'.spends[k] == e.spend;
      }
    }
  }

  lemma ActPermits(s: State, i: nat, x: Input)
    requires i in s.requests && StageFits(s.requests[i]) && |PermitHolders(s)| <= s.permits
    ensures |PermitHolders(Act(s, i, x))| <= Act(s, i, x).permits
  {
    ReactFits(s, i, x);
    var before, after := PermitHolders(s), PermitHolders(Act(s, i, x));
    assert after <= before + {i};
    if |before| < s.permits {
      Card(after, before + {i});
    } else {
      assert after <= before;
      Card(after, before);
    }
  }

  lemma {:induction false} Card(a: set<nat>, b: set<nat>)
    requires a <= b
    ensures |a| <= |b|
  {
    if a != {} {
      var x :| x in a;
      Card(a - {x}, b - {x});
    }
  }

  lemma ActKept(s: State, i: nat, x: Input)
    requires Inv(s) && i in s.requests
    ensures Inv(Act(s, i, x))
  {
    var (e, r) := React(s, i, x);
    ReactFits(s, i, x);
    EffectConserves(s, i, e, r);
    ActAccounts(s, i, x);
    ActSpends(s, i, x);
    ActPermits(s, i, x);
  }

  lemma OtherAccounts(s: State, step: Step)
    requires Accounted(s) && Enabled(s, step) && !step.Proceed?
    ensures Accounted(Exec(s, step))
  {
    var s' := Exec(s, step);
    forall i | i in s'.requests ensures StageFits(s'.requests[i]) && CountFits(s'.requests[i], CountOf(s.spends, i)) {
      assert i in s.requests ==> StageFits(s.requests[i]) && CountFits(s.requests[i], CountOf(s.spends, i));
      assert i !in s.requests ==> CountOf(s.spends, i) == 0;
    }
  }

  lemma OtherSpends(s: State, step: Step, d: Spend)
    requires SpendFits(s, d) && Enabled(s, step) && !step.Proceed?
    ensures SpendFits(Exec(s, step), d)
  {
  }

  lemma OtherPermits(s: State, step: Step)
    requires Enabled(s, step) && !step.Proceed?
    ensures |PermitHolders(Exec(s, step))| <= |PermitHolders(s)|
  {
    var s' := Exec(s, step);
    assert forall i :: i in s'.requests && HoldsPermit(s'.requests[i]) ==>
              i in s.requests && HoldsPermit(s.requests[i]);
    Card(PermitHolders(s'), PermitHolders(s));
  }

  lemma OtherKept(s: State, step: Step)
    requires Inv(s) && Enabled(s, step) && !step.Proceed?
    ensures Inv(Exec(s, step))
  {
    var s' := Exec(s, step);
    assert s' == s.(requests := s'.requests);
    OtherAccounts(s, step);
    OtherPermits(s, step);
    forall k | 0 <= k < |s'.spends| ensures SpendFits(s', s'.spends[k]) {
      OtherSpends(s, step, s.spends[k]);
    }
  }

  lemma StepKept(s: State, step: Step)
    requires Inv(s) && Enabled(s, step)
    ensures Inv(Exec(s, step))
  {
    if step.Proceed? { ActKept(s, step.i, step.input); } else { OtherKept(s, step); }
  }

  lemma {:induction false} RunInv(states: seq<State>, steps: seq<Step>, i: nat)
    requires IsRun(states, steps) && Start(states[0]) && i < |states|
    ensures Inv(states[i])
  {
    if i == 0 {
      assert PermitHolders(states[0]) == {};
    } else {
      RunInv(states, steps, i - 1);
      StepKept(states[i - 1], steps[i - 1]);
    }
  }

  // ---- guarantees ----

  /** Nothing is lost or made up: what was issued is outstanding, spent or purged. */
  lemma NoncesConserved(states: seq<State>, steps: seq<Step>, i: nat)
    requires IsRun(states, steps) && Start(states[0]) && i < |states|
    ensures states[i].issued == Tickets(states[i].table) + Spent(states[i].spends) + states[i].purged
  {
    RunInv(states, steps, i);
  }

  lemma {:induction false} FindSpend(spends: seq<Spend>, i: nat) returns (k: nat)
    requires CountOf(spends, i) > 0
    ensures k < |spends| && spends[k].spender == i && spends[k].ticket in Spent(spends)
  {
    if spends[|spends| - 1].spender == i {
      k := |spends| - 1;
    } else {
      k := FindSpend(spends[..|spends| - 1], i);
    }
  }

  /** An accepted request spent exactly one nonce: one that was issued for the ASN and expiry it was
      presented with, at a moment not past that expiry. */
  lemma AcceptedSpentOne(states: seq<State>, steps: seq<Step>, i: nat, n: nat) returns (k: nat)
    requires IsRun(states, steps) && Start(states[0]) && i < |states|
    requires n in states[i].requests && states[i].requests[n].point == Finished(Accepted)
    ensures var s := states[i];
            && CountOf(s.spends, n) == 1 && k < |s.spends| && s.spends[k].spender == n
            && s.spends[k].ticket == s.requests[n].ticket && s.requests[n].ticket in s.issued
            && s.spends[k].at <= s.requests[n].ticket.grant.expires
  {
    RunInv(states, steps, i);
    var s := states[i];
    assert CountFits(s.requests[n], CountOf(s.spends, n));
    k := FindSpend(s.spends, n);
    assert SpendFits(s, s.spends[k]);
  }

  predicate Refused(v: Verdict) {
    v == Expired || v == BadSignature || v == Busy || v == Unknown
  }

  /** An expired challenge, a bad signature, a missing permit or an unknown nonce spends nothing. */
  lemma RefusedSpentNone(states: seq<State>, steps: seq<Step>, i: nat, n: nat)
    requires IsRun(states, steps) && Start(states[0]) && i < |states|
    requires n in states[i].requests && states[i].requests[n].point.Finished?
    requires Refused(states[i].requests[n].point.verdict)
    ensures CountOf(states[i].spends, n) == 0
  {
    RunInv(states, steps, i);
    assert StageFits(states[i].requests[n]);
    assert CountFits(states[i].requests[n], CountOf(states[i].spends, n));
  }

  predicate SpentBy(spends: seq<Spend>, t: Ticket, n: nat) {
    exists k :: 0 <= k < |spends| && spends[k].spender == n && spends[k].ticket == t
  }

  lemma {:induction false} DistinctSpends(spends: seq<Spend>, t: Ticket, ids: set<nat>)
    requires forall n :: n in ids ==> SpentBy(spends, t, n)
    ensures |ids| <= Spent(spends)[t]
  {
    if ids != {} {
      var before, last := spends[..|spends| - 1], spends[|spends| - 1];
      var rest := if last.ticket == t then ids - {last.spender} else ids;
      forall n | n in rest ensures SpentBy(before, t, n) {
        var k :| 0 <= k < |spends| && spends[k].spender == n && spends[k].ticket == t;
        assert before[k] == spends[k];
      }
      DistinctSpends(before, t, rest);
    }
  }

  ghost function AcceptedWith(s: State, t: Ticket): set<nat> {
    set n | n in s.requests && s.requests[n].point == Finished(Accepted) && s.requests[n].ticket == t
  }

  /** A nonce serves once: no more requests are accepted with it than times it was issued. */
  lemma SingleUse(states: seq<State>, steps: seq<Step>, i: nat, t: Ticket)
    requires IsRun(states, steps) && Start(states[0]) && i < |states|
    ensures |AcceptedWith(states[i], t)| <= states[i].issued[t]
  {
    RunInv(states, steps, i);
    var s := states[i];
    forall n | n in AcceptedWith(s, t) ensures SpentBy(s.spends, t, n) {
      var k := AcceptedSpentOne(states, steps, i, n);
      assert s.spends[k].spender == n;
    }
    DistinctSpends(s.spends, t, AcceptedWith(s, t));
  }

  /** Never more registry checks at once than permits. */
  lemma RegistryBounded(states: seq<State>, steps: seq<Step>, i: nat)
    requires IsRun(states, steps) && Start(states[0]) && i < |states|
    ensures |PermitHolders(states[i])| <= states[i].permits
  {
    RunInv(states, steps, i);
  }

  // ---- what an accepted request went through ----

  /** The checks of `authorize_request` in their order; 6 is past all of them. */
  function Stage(p: Point): nat {
    match p
    case CheckExpiry => 1
    case CheckSignature => 2
    case TakePermit => 3
    case Consume => 4
    case AskRegistry => 5
    case Finished(v) => if v == Accepted then 6 else 0
    case _ => 0
  }

  /** What the check at hand is about. */
  predicate Passes(s: State, i: nat, x: Input)
    requires i in s.requests
  {
    var r := s.requests[i];
    match r.point
    case CheckExpiry => x.now <= r.ticket.grant.expires
    case CheckSignature => x.good
    case TakePermit => |PermitHolders(s)| < s.permits
    case Consume =>
      x.out.Succeed? && r.ticket.nonce in s.table && s.table[r.ticket.nonce] == r.ticket.grant
      && x.now <= r.ticket.grant.expires
    case AskRegistry => x.out.Succeed? && x.good
    case _ => false
  }

  /** A request goes on to the next check exactly if the present one passes; otherwise it ends. */
  lemma AdvancesExactly(s: State, i: nat, x: Input)
    requires i in s.requests && 1 <= Stage(s.requests[i].point) <= 5
    ensures var p, p' := s.requests[i].point, Act(s, i, x).requests[i].point;
            if Passes(s, i, x) then Stage(p') == Stage(p) + 1 else p'.Finished? && p'.verdict != Accepted
  {
    if s.requests[i].point.Consume? { ConsumeAdvances(s, i, x); } else { CheckAdvances(s, i, x); }
  }

  lemma ConsumeAdvances(s: State, i: nat, x: Input)
    requires i in s.requests && s.requests[i].point.Consume?
    ensures var p' := Check(s, i, s.requests[i], x).1.point;
            if Passes(s, i, x) then p'.AskRegistry? else p'.Finished? && p'.verdict != Accepted
  {
  }

  lemma CheckAdvances(s: State, i: nat, x: Input)
    requires i in s.requests && 1 <= Stage(s.requests[i].point) <= 5 && !s.requests[i].point.Consume?
    ensures var p, p' := s.requests[i].point, Check(s, i, s.requests[i], x).1.point;
            if Passes(s, i, x) then Stage(p') == Stage(p) + 1 else p'.Finished? && p'.verdict != Accepted
  {
  }

  /** Request n has passed check k among the first i steps. */
  ghost predicate Passed(states: seq<State>, steps: seq<Step>, i: nat, n: nat, k: nat)
    requires i <= |steps| < |states|
  {
    exists j :: 0 <= j < i && PassedAt(states[j], steps[j], n, k)
  }

  predicate PassedAt(s: State, step: Step, n: nat, k: nat) {
    && step.Proceed? && step.i == n && n in s.requests
    && Stage(s.requests[n].point) == k && Passes(s, n, step.input)
  }

  lemma StageStep(s: State, step: Step, s': State, n: nat, k: nat)
    requires Enabled(s, step) && s' == Exec(s, step) && n in s'.requests && 1 <= k < Stage(s'.requests[n].point)
    ensures PassedAt(s, step, n, k) || (n in s.requests && k < Stage(s.requests[n].point))
  {
    if step.Proceed? && step.i == n && 1 <= Stage(s.requests[n].point) <= 5 { AdvancesExactly(s, n, step.input); }
  }

  lemma Linked(states: seq<State>, steps: seq<Step>, i: nat)
    requires IsRun(states, steps) && i < |steps|
    ensures Enabled(states[i], steps[i]) && states[i + 1] == Exec(states[i], steps[i])
  {
  }

  lemma PassedBefore(states: seq<State>, steps: seq<Step>, j: nat, n: nat, k: nat)
    requires j < |steps| < |states| && (PassedAt(states[j], steps[j], n, k) || Passed(states, steps, j, n, k))
    ensures Passed(states, steps, j + 1, n, k)
  {
  }

  lemma {:induction false} EarlierPassed(states: seq<State>, steps: seq<Step>, i: nat, n: nat, k: nat)
    requires IsRun(states, steps) && states[0].requests == map[] && i < |states|
    requires n in states[i].requests && 1 <= k < Stage(states[i].requests[n].point)
    ensures Passed(states, steps, i, n, k)
  {
    assert i > 0;
    var j := i - 1;
    Linked(states, steps, j);
    StageStep(states[j], steps[j], states[j + 1], n, k);
    if !PassedAt(states[j], steps[j], n, k) {
      EarlierPassed(states, steps, j, n, k);
    }
    PassedBefore(states, steps, j, n, k);
  }

  lemma VerdictKept(s: State, step: Step, n: nat)
    requires Enabled(s, step) && n in s.requests && s.requests[n].point.Finished?
    ensures n in Exec(s, step).requests && Exec(s, step).requests[n].point == s.requests[n].point
  {
  }

  lemma {:induction false} VerdictStays(states: seq<State>, steps: seq<Step>, j: nat, i: nat, n: nat)
    requires IsRun(states, steps) && j <= i < |states|
    requires n in states[j].requests && states[j].requests[n].point.Finished?
    ensures n in states[i].requests && states[i].requests[n].point == states[j].requests[n].point
  {
    if j < i {
      VerdictStays(states, steps, j, i - 1, n);
      VerdictKept(states[i - 1], steps[i - 1], n);
    }
  }

  /** In every run, a request is accepted exactly if it has passed all five checks. */
  lemma AcceptedExactly(states: seq<State>, steps: seq<Step>, i: nat, n: nat)
    requires IsRun(states, steps) && Start(states[0]) && i < |states| && n in states[i].requests
    ensures states[i].requests[n].point == Finished(Accepted)
       <==> forall k :: 1 <= k <= 5 ==> Passed(states, steps, i, n, k)
  {
    if states[i].requests[n].point == Finished(Accepted) {
      forall k | 1 <= k <= 5 ensures Passed(states, steps, i, n, k) {
        EarlierPassed(states, steps, i, n, k);
      }
    } else if Passed(states, steps, i, n, 5) {
      var j :| 0 <= j < i && PassedAt(states[j], steps[j], n, 5);
      AdvancesExactly(states[j], n, steps[j].input);
      VerdictStays(states, steps, j + 1, i, n);
    }
  }

  // ---- what issuing a nonce amounts to ----

  ghost function GivenWith(s: State, t: Ticket): set<nat> {
    set n | n in s.requests && s.requests[n].point == Finished(Issued) && s.requests[n].ticket == t
  }

  /** A nonce is only given after it was recorded: it is fresh in the table, for the ASN and expiry of the request. */
  lemma GivenExactly(s: State, i: nat, x: Input)
    requires i in s.requests && s.requests[i].point.Insert?
    ensures var k := Ticket(x.nonce, s.requests[i].ticket.grant);
            var s' := Act(s, i, x);
            && (s'.requests[i].point == Finished(Issued) <==> x.nonce !in s.table && x.out.Succeed?)
            && (s'.requests[i].point == Finished(Issued) ==>
                  s'.requests[i].ticket == k && s'.table == s.table[k.nonce := k.grant]
                  && s'.issued == s.issued + multiset{k})
  {
  }

  lemma OthersGiven(s: State, step: Step, t: Ticket)
    requires Enabled(s, step) && !step.Proceed?
    ensures GivenWith(Exec(s, step), t) <= GivenWith(s, t) && Exec(s, step).issued == s.issued
  {
  }

  /** Only recording the ticket gives it. */
  lemma ActGives(s: State, i: nat, x: Input, t: Ticket)
    requires i in s.requests
    ensures GivenWith(Act(s, i, x), t) <= GivenWith(s, t) + if React(s, i, x).0 == Record(t) then {i} else {}
  {
    var (e, r) := React(s, i, x);
    assert r.point == Finished(Issued) && s.requests[i].point != Finished(Issued) ==> e == Record(r.ticket);
    assert s.requests[i].point == Finished(Issued) ==> r == s.requests[i];
  }

  lemma ActRecords(s: State, i: nat, x: Input, t: Ticket)
    requires i in s.requests
    ensures Act(s, i, x).issued[t] == s.issued[t] + if React(s, i, x).0 == Record(t) then 1 else 0
  {
  }

  lemma GivenStep(s: State, step: Step, t: Ticket)
    requires Enabled(s, step)
    ensures |GivenWith(Exec(s, step), t)| - |GivenWith(s, t)| <= Exec(s, step).issued[t] - s.issued[t]
  {
    var before, after := GivenWith(s, t), GivenWith(Exec(s, step), t);
    if step.Proceed? {
      ActGives(s, step.i, step.input, t);
      ActRecords(s, step.i, step.input, t);
      Card(after, before + if React(s, step.i, step.input).0 == Record(t) then {step.i} else {});
    } else {
      OthersGiven(s, step, t);
      Card(after, before);
    }
  }

  /** In every run a nonce is given to no more clients than times it was recorded. */
  lemma {:induction false} GivenOnce(states: seq<State>, steps: seq<Step>, i: nat, t: Ticket)
    requires IsRun(states, steps) && Start(states[0]) && i < |states|
    ensures |GivenWith(states[i], t)| <= states[i].issued[t]
  {
    if i > 0 {
      GivenOnce(states, steps, i - 1, t);
      GivenStep(states[i - 1], steps[i - 1], t);
    }
  }
}
