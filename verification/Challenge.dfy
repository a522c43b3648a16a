/** Issuing and checking challenges, one request at a time, on the nonce table. */
module Challenge {
  import opened Nonces
  import opened World

  /** One try of `issue_challenge`: a random nonce, a clock reading and how its two statements end. */
  datatype Draw = Draw(nonce: string, now: int, purge: Outcome, insert: Outcome)

  /** What the outside contributes to `authorize_request`. */
  datatype Facts = Facts(received: int, signed: bool, consumed: int, consume: Outcome, registry: Outcome, listed: bool)

  /** Rows only disappear when they were past their expiry by some clock reading. */
  ghost predicate OnlyPurged(t: Table, t': Table, draws: seq<Draw>, tries: nat) {
    && tries <= |draws|
    && (forall n :: n in t' ==> n in t && t'[n] == t[n])
    && (forall n :: n in t && n !in t' ==> exists j :: 0 <= j < tries && t[n].expires < draws[j].now)
  }

  lemma PurgedAgain(t: Table, t': Table, draws: seq<Draw>, k: nat)
    requires k < |draws| && OnlyPurged(t, t', draws, k)
    ensures OnlyPurged(t, Purge(t', draws[k].now), draws, k + 1) && OnlyPurged(t, t', draws, k + 1)
  {
  }

  /** The nonce was issued for this ASN and expiry, is still there, and is not past it. */
  predicate Fresh(t: Table, k: Ticket, now: int) {
    && k.nonce in t && t[k.nonce].asn == k.grant.asn && t[k.nonce].expires == k.grant.expires
    && now <= k.grant.expires
  }

  /** Neither late nor badly signed. */
  predicate WellMade(k: Ticket, f: Facts) {
    f.received <= k.grant.expires && f.signed
  }

  /** What a nonce request ends with. */
  datatype Answer = Given(ticket: Ticket) | NoUniqueNonce | StoreError

  class Authorizer {
    const permits: nat
    var table: Table
    var checks: nat   // registry checks under way

    constructor (table: Table, permits: nat)
      ensures this.table == table && this.permits == permits && checks == 0
    {
      this.table, this.permits, checks := table, permits, 0;
    }

    /** `insert_nonce`: purge, then insert unless the nonce exists. */
    method InsertNonce(k: Ticket, d: Draw) returns (known: bool, inserted: bool)
      modifies this`table
      ensures known <==> d.purge.Succeed? && d.insert.Succeed?
      ensures inserted ==> known && k.nonce !in Purge(old(table), d.now)
                           && table == Purge(old(table), d.now)[k.nonce := k.grant]
      ensures known && !inserted ==> k.nonce in table && table == Purge(old(table), d.now)
      // Nothing past its expiry survives the purge.
      ensures known ==> forall n :: n in table && n != k.nonce ==> d.now <= table[n].expires
      ensures table == old(table) || table == Purge(old(table), d.now)
              || (k.nonce !in Purge(old(table), d.now) && table == Purge(old(table), d.now)[k.nonce := k.grant])
    {
      if !d.purge.Fail? { table := Purge(table, d.now); }
      if !d.purge.Succeed? { return false, false; }
      inserted := k.nonce !in table;
      if inserted && !d.insert.Fail? { table := table[k.nonce := k.grant]; }
      known := d.insert.Succeed?;
      inserted := inserted && known;
    }

    /** `issue_challenge` */
    method IssueChallenge(asn: nat, now: int, draws: seq<Draw>) returns (a: Answer, ghost tries: nat)
      requires |draws| == 4
      modifies this`table
      ensures tries <= 4
      // The nonce is the first free one drawn, belongs to the ASN, and expires five minutes from now.
      ensures a.Given? ==>
                && tries > 0 && a.ticket == Ticket(draws[tries - 1].nonce, Grant(asn, now + 300))
                && (forall j :: 0 <= j < tries - 1 ==> draws[j].nonce in old(table))
                && a.ticket.nonce in table && table[a.ticket.nonce] == a.ticket.grant
                && OnlyPurged(old(table), table - {a.ticket.nonce}, draws, tries)
                && (a.ticket.nonce in old(table) ==>
                          exists j :: 0 <= j < tries && old(table)[a.ticket.nonce].expires < draws[j].now)
      // No other nonce past its expiry is left.
      ensures a.Given? ==>
                forall n :: n in table && n != a.ticket.nonce ==> draws[tries - 1].now <= table[n].expires
      // It gives up only when every nonce it drew was taken.
      ensures a.NoUniqueNonce? ==>
                tries == 4 && OnlyPurged(old(table), table, draws, 4)
                && forall j :: 0 <= j < 4 ==> draws[j].nonce in old(table)
      ensures a.StoreError? ==> exists j :: 0 <= j < 4 && !(draws[j].purge.Succeed? && draws[j].insert.Succeed?)
    {
      var grant := Grant(asn, now + TTL);
      tries := 0;
      var k := 0;
      while k < TRIES
        invariant k == tries <= TRIES && OnlyPurged(old(table), table, draws, k)
        invariant forall j :: 0 <= j < k ==> draws[j].nonce in old(table)
      {
        var ticket := Ticket(draws[k].nonce, grant);
        ghost var before := table;
        PurgedAgain(old(table), before, draws, k);
        var known, inserted := InsertNonce(ticket, draws[k]);
        k, tries := k + 1, tries + 1;
        if !known { return StoreError, tries; }
        if inserted {
          assert table - {ticket.nonce} == Purge(before, draws[k - 1].now);
          return Given(ticket), tries;
        }
      }
      return NoUniqueNonce, tries;
    }

    /** `consume_nonce` */
    method ConsumeNonce(k: Ticket, now: int, out: Outcome) returns (known: bool, consumed: bool)
      modifies this`table
      ensures known == out.Succeed? && (consumed <==> known && Fresh(old(table), k, now))
      ensures table == if !out.Fail? && Fresh(old(table), k, now) then old(table) - {k.nonce} else old(table)
    {
      known, consumed := out.Succeed?, out.Succeed? && Matches(table, k, now);
      if !out.Fail? && Matches(table, k, now) { table := table - {k.nonce}; }
    }

    /** `authorize_request` */
    method AuthorizeRequest(k: Ticket, f: Facts) returns (v: Verdict)
      requires checks <= permits
      modifies this`table, this`checks
      ensures checks == old(checks)
      // The verdict is the first check that does not pass, in this order.
      ensures v == Expired <==> k.grant.expires < f.received
      ensures v == BadSignature <==> f.received <= k.grant.expires && !f.signed
      ensures v == Busy <==> WellMade(k, f) && checks == permits
      ensures v == Unknown <==> WellMade(k, f) && checks < permits && f.consume.Succeed?
                                && !Fresh(old(table), k, f.consumed)
      ensures v == Failed <==> WellMade(k, f) && checks < permits
                               && (!f.consume.Succeed? || (Fresh(old(table), k, f.consumed) && !f.registry.Succeed?))
      ensures v == Mismatch <==> WellMade(k, f) && checks < permits && f.consume.Succeed?
                                 && Fresh(old(table), k, f.consumed) && f.registry.Succeed? && !f.listed
      // Accepted exactly when every check passes.
      ensures v == Accepted <==> WellMade(k, f) && checks < permits && f.consume.Succeed?
                                 && Fresh(old(table), k, f.consumed) && f.registry.Succeed? && f.listed
      // This nonce and no other is gone, once the request got as far as that.
      ensures table == if WellMade(k, f) && checks < permits && !f.consume.Fail? && Fresh(old(table), k, f.consumed)
                       then old(table) - {k.nonce} else old(table)
    {
      if k.grant.expires < f.received { return Expired; }
      if !f.signed { return BadSignature; }
      if checks == permits { return Busy; }
      checks := checks + 1;
      var known, consumed := ConsumeNonce(k, f.consumed, f.consume);
      if !known {
        v := Failed;
      } else if !consumed {
        v := Unknown;
      } else {
        v := if !f.registry.Succeed? then Failed else if f.listed then Accepted else Mismatch;
      }
      checks := checks - 1;
    }
  }

  /** A signed request that was accepted, or turned away by the registry, is not accepted when repeated. */
  method Replay(a: Authorizer, k: Ticket, f: Facts, g: Facts) returns (v: Verdict, again: Verdict)
    requires a.checks <= a.permits
    modifies a`table, a`checks
    ensures v == Accepted || v == Mismatch ==> again != Accepted && again != Mismatch
  {
    v := a.AuthorizeRequest(k, f);
    again := a.AuthorizeRequest(k, g);
  }
}
