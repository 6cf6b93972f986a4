/** What an attempt of a flush does: what delivering again changes, and when the attempt succeeds. */
module Attempts {
  import opened Domain
  import opened TransferIds
  import opened Ledger
  import opened Transfers
  import opened Replies
  import opened Activities
  import opened Protocol
  import opened Invariant
  import opened Preservation
  import opened Guarantees

  // ---------------------------------------------------------------------------------------------
  // Delivering again
  // ---------------------------------------------------------------------------------------------

  lemma {:induction false} GenuineHasAccounts(s: Sys, t: Transfer)
    requires Booked(s) && Genuine(s.config, s.inputs, s.credits, t)
    ensures t.debit in s.ledger.accounts && t.credit in s.ledger.accounts
  {
    EveryResource(t.id.ledger);
  }

  /** Transfers that were all delivered, seen again in any state later on. */
  lemma {:induction false} DeliveredIsIdle(s: Sys, ts: seq<Transfer>, l: State, again: seq<Transfer>)
    requires Booked(s) && AllIssued(s.config, s.inputs, s.credits, ts)
    requires Extends(Run(s.ledger, ts), l) && WellFormed(l)
    requires forall t :: t in again ==> t in ts
    ensures Run(l, again) == l
  {
    RunSettles(s.ledger, ts);
    RunExtends(s.ledger, ts);
    forall t | t in again ensures Settled(l, t) && t.debit in l.accounts && t.credit in l.accounts {
      GenuineHasAccounts(s, t);
      SettledStays(Run(s.ledger, ts), l, t);
    }
    SettledBatchIsIdle(l, again);
  }

  lemma {:induction false} OrderFree(input: BatchInput, o: seq<Uuid>, p: seq<Uuid>, t: Transfer)
    requires KnowsClusters(input, o) && KnowsClusters(input, p)
    requires forall c :: c in p ==> c in o
    requires t in GaugeRequest(input, p)
    ensures t in GaugeRequest(input, o)
  {
    var us, vs := GaugeUpdates(input, o), GaugeUpdates(input, p);
    BatchMembers(vs, t);
    var v :| v in vs && (t in VoidPart(v) || t in ReservePart(v));
    var i :| 0 <= i < |vs| && vs[i] == v;
    assert p[i] in p;
    var j :| 0 <= j < |o| && o[j] == p[i];
    assert us[j] == v;
    assert v in us;
    BatchMembers(us, t);
  }

  lemma {:induction false} UsageRedelivered(s: Sys, n: nat, l: State)
    requires Numbered(s) && Booked(s) && n in s.inputs && Extends(Run(s.ledger, UsageRequest(s.inputs[n])), l)
    requires WellFormed(l)
    ensures Run(l, UsageRequest(s.inputs[n])) == l
  {
    UsageIssued(s.config, s.inputs, s.credits, n);
    DeliveredIsIdle(s, UsageRequest(s.inputs[n]), l, UsageRequest(s.inputs[n]));
  }

  lemma {:induction false} GaugeRedelivered(s: Sys, n: nat, o: seq<Uuid>, p: seq<Uuid>, l: State)
    requires Numbered(s) && Booked(s) && n in s.inputs && KnowsClusters(s.inputs[n], o) && KnowsClusters(s.inputs[n], p)
    requires forall c :: c in p ==> c in o
    requires Extends(Run(s.ledger, GaugeRequest(s.inputs[n], o)), l) && WellFormed(l)
    ensures Run(l, GaugeRequest(s.inputs[n], p)) == l
  {
    GaugeIssued(s.config, s.inputs, s.credits, n, o);
    forall t | t in GaugeRequest(s.inputs[n], p) ensures t in GaugeRequest(s.inputs[n], o) {
      OrderFree(s.inputs[n], o, p, t);
    }
    DeliveredIsIdle(s, GaugeRequest(s.inputs[n], o), l, GaugeRequest(s.inputs[n], p));
  }

  lemma {:induction false} CreditRedelivered(s: Sys, n: nat, l: State)
    requires Numbered(s) && Booked(s) && n in s.credits && WellFormed(l)
    requires Extends(Run(s.ledger, [CreditTransfer(s.config, n, s.credits[n])]), l)
    ensures Run(l, [CreditTransfer(s.config, n, s.credits[n])]) == l
  {
    CreditIssued(s.config, s.inputs, s.credits, n);
    var ts := [CreditTransfer(s.config, n, s.credits[n])];
    DeliveredIsIdle(s, ts, l, ts);
  }

  lemma {:induction false} InitialRedelivered(s: Sys, l: State)
    requires Numbered(s) && Booked(s) && Extends(Run(s.ledger, InitialRequest(s.config, |AllResources|)), l)
    requires WellFormed(l)
    ensures Run(l, InitialRequest(s.config, |AllResources|)) == l
  {
    InitialIssued(s.config, s.inputs, s.credits);
    DeliveredIsIdle(s, InitialRequest(s.config, |AllResources|), l, InitialRequest(s.config, |AllResources|));
  }

  lemma {:induction false} AttemptsCollapse(s: Sys, n: nat, o: seq<Uuid>, p: seq<Uuid>)
    requires Inv(s) && n in s.inputs && KnowsClusters(s.inputs[n], o) && KnowsClusters(s.inputs[n], p)
    requires forall c :: c in p ==> c in o
    ensures var us, gs := UsageRequest(s.inputs[n]), GaugeRequest(s.inputs[n], o);
            var usageOnly := Run(s.ledger, us);
            var both := Run(usageOnly, gs);
            && Run(Run(usageOnly, us), gs) == both
            && Run(Run(both, us), GaugeRequest(s.inputs[n], p)) == both
  {
    var us, gs := UsageRequest(s.inputs[n]), GaugeRequest(s.inputs[n], o);
    var s1 := SendUsage(s, n);
    DeliverUsageInv(s, n);
    UsageRedelivered(s, n, s1.ledger);
    var both := Run(s1.ledger, gs);
    RunValid(s1.ledger, gs);
    RunExtends(s1.ledger, gs);
    UsageRedelivered(s, n, both);
    GaugeRedelivered(s1, n, o, p, both);
  }

  /**
   * An attempt that stopped before, between or after its two requests, followed by a whole new
   * attempt in any order of clusters, is one attempt: the ledger is where that one leaves it.
   */
  lemma {:induction false} RetryAfterStop(cfg: Config, es: seq<Event>, n: nat, o: seq<Uuid>, p: seq<Uuid>)
    requires n in Exec(Init(cfg), es).inputs
    requires KnowsClusters(Exec(Init(cfg), es).inputs[n], o) && KnowsClusters(Exec(Init(cfg), es).inputs[n], p)
    requires forall c :: c in p ==> c in o
    ensures var s := Exec(Init(cfg), es);
            var us, gs := UsageRequest(s.inputs[n]), GaugeRequest(s.inputs[n], o);
            var usageOnly := Run(s.ledger, us);
            var both := Run(usageOnly, gs);
            && Run(Run(usageOnly, us), gs) == both
            && Run(Run(both, us), GaugeRequest(s.inputs[n], p)) == both
  {
    ExecInv(cfg, es);
    AttemptsCollapse(Exec(Init(cfg), es), n, o, p);
  }

  // ---------------------------------------------------------------------------------------------
  // The usage request
  // ---------------------------------------------------------------------------------------------

  lemma {:induction false} UsageTransfersFit(s: Sys, n: nat)
    requires Numbered(s) && Booked(s) && n in s.inputs
    ensures PostsBetween(s.ledger, UsageRequest(s.inputs[n]))
    ensures forall t :: t in UsageRequest(s.inputs[n]) ==> t.id.UsageId?
  {
    var us := UsageRequest(s.inputs[n]);
    UsageIssued(s.config, s.inputs, s.credits, n);
    forall t | t in us
      ensures Routable(t) && !t.kind.VoidPending? && t.id.UsageId?
      ensures t.debit in s.ledger.accounts && t.credit in s.ledger.accounts
    {
      GenuineHasAccounts(s, t);
      UsageBatchMembers(s.config.tenant, s.inputs[n].heartbeats, t);
    }
  }

  lemma {:induction false} UsageAgain(s: Sys, n: nat)
    requires Numbered(s) && Booked(s) && n in s.inputs
    requires forall t :: t in UsageRequest(s.inputs[n]) ==> Settled(s.ledger, t)
    ensures var us := UsageRequest(s.inputs[n]);
            Run(s.ledger, us) == s.ledger
            && (AllClassifiable(Outcomes(s.ledger, us)) <==> forall t :: t in us ==> Recorded(s.ledger, t))
  {
    UsageTransfersFit(s, n);
    SettledBatchIsIdle(s.ledger, UsageRequest(s.inputs[n]));
    RetryOfSettled(s.ledger, UsageRequest(s.inputs[n]));
  }

  // ---------------------------------------------------------------------------------------------
  // The gauge request
  // ---------------------------------------------------------------------------------------------

  lemma {:induction false} GaugeTransferShape(s: Sys, n: nat, o: seq<Uuid>, t: Transfer)
    requires Numbered(s) && Booked(s) && Tracks(s) && n in s.inputs && KnowsClusters(s.inputs[n], o)
    requires t in GaugeRequest(s.inputs[n], o)
    ensures Genuine(s.config, s.inputs, s.credits, t) && (t.id.GaugePendingId? || t.id.GaugeVoidId?)
    ensures t.id.GaugeVoidId? <==> t.kind.VoidPending?
    ensures t.id.GaugeVoidId? ==>
              IsPendingAmong(s.ledger, t.kind.pendingId, t)
  {
    GaugeIssued(s.config, s.inputs, s.credits, n, o);
    GaugeIdsCarryNumber(s, n, o, t);
    if t.id.GaugeVoidId? {
      var c := t.id.cluster;
      assert TracksAll(s.config, s.inputs, s.done, s.ledger, s.inputs[n].pendingGauge, n);
      assert TracksOne(s.config, s.inputs, s.done, s.ledger, c, s.inputs[n].pendingGauge[c], n);
      assert Genuine(s.config, s.inputs, s.credits, s.ledger.transfers[t.kind.pendingId]);
    }
  }

  /** The ID names a reservation between the same two accounts. */
  predicate IsPendingAmong(l: State, id: TransferId, t: Transfer) {
    && id in l.transfers && l.transfers[id].kind.Pending?
    && l.transfers[id].debit == t.debit && l.transfers[id].credit == t.credit
  }

  /** What is committed under a gauge transfer's ID is that transfer, a void's amount aside. */
  lemma {:induction false} CommittedAsSent(s: Sys, t: Transfer)
    requires Booked(s) && Genuine(s.config, s.inputs, s.credits, t) && (t.id.GaugePendingId? || t.id.GaugeVoidId?)
    requires t.id in s.ledger.transfers
    ensures s.ledger.transfers[t.id] == t.(amount := s.ledger.transfers[t.id].amount)
    ensures t.id.GaugePendingId? ==> s.ledger.transfers[t.id] == t
  {
    assert Genuine(s.config, s.inputs, s.credits, s.ledger.transfers[t.id]);
  }

  lemma {:induction false} GaugeOutcome(l: State, t: Transfer)
    requires WellFormed(l) && Routable(t) && t.debit in l.accounts && t.credit in l.accounts
    requires t.id in l.transfers ==> l.transfers[t.id] == t.(amount := l.transfers[t.id].amount)
    requires t.kind.VoidPending? ==> IsPendingAmong(l, t.kind.pendingId, t)
    requires !t.kind.VoidPending? && t.id in l.transfers ==> l.transfers[t.id] == t
    ensures Tolerated(t.kind.VoidPending?, Apply(l, t).outcome) <==> t.id !in l.failed
  {
  }

  /** Alone, at any time: a transfer of a gauge request is tolerated unless its ID is burnt. */
  lemma {:induction false} GaugeTransferTolerated(s: Sys, n: nat, o: seq<Uuid>, t: Transfer)
    requires Numbered(s) && Booked(s) && Tracks(s) && n in s.inputs && KnowsClusters(s.inputs[n], o)
    requires t in GaugeRequest(s.inputs[n], o)
    ensures Tolerated(t.kind.VoidPending?, Apply(s.ledger, t).outcome) <==> t.id !in s.ledger.failed
    ensures t.debit in s.ledger.accounts && t.credit in s.ledger.accounts
  {
    GaugeTransferShape(s, n, o, t);
    GenuineHasAccounts(s, t);
    if t.id in s.ledger.transfers {
      CommittedAsSent(s, t);
    }
    GaugeOutcome(s.ledger, t);
  }

  /** No two transfers of a gauge request share an ID. */
  lemma {:induction false} GaugeIdsDistinct(s: Sys, n: nat, o: seq<Uuid>)
    requires Numbered(s) && n in s.inputs && KnowsClusters(s.inputs[n], o)
    requires IsOrder(o, Latest(s.inputs[n].heartbeats).Keys)
    ensures DistinctIds(GaugeRequest(s.inputs[n], o))
  {
    var us := GaugeUpdates(s.inputs[n], o);
    forall i | 0 <= i < |us|
      ensures us[i].newId == Pid(s.config.tenant, n, o[i]) && us[i].voidId == Vid(s.config.tenant, n, o[i])
    {
      UpdateParts(s.config, n, s.inputs[n], o[i]);
    }
    DistinctInBatch(us);
  }

  lemma {:induction false} GaugeToleratedAt(s: Sys, n: nat, o: seq<Uuid>, i: nat)
    requires Numbered(s) && Booked(s) && Tracks(s) && n in s.inputs && KnowsClusters(s.inputs[n], o)
    requires DistinctIds(GaugeRequest(s.inputs[n], o)) && i < |GaugeRequest(s.inputs[n], o)|
    ensures var gs := GaugeRequest(s.inputs[n], o);
            Tolerated(gs[i].kind.VoidPending?, Outcomes(s.ledger, gs)[i]) <==> gs[i].id !in s.ledger.failed
  {
    var gs := GaugeRequest(s.inputs[n], o);
    var s' := s.(ledger := Run(s.ledger, gs[..i]));
    GaugeIssued(s.config, s.inputs, s.credits, n, o);
    assert AllIssued(s.config, s.inputs, s.credits, gs[..i]);
    DeliverBooked(s, gs[..i]);
    GrowTracks(s, s'.ledger);
    GaugeTransferTolerated(s', n, o, gs[i]);
    OthersKeepId(s.ledger, gs[..i], gs[i].id);
    OutcomesByIndex(s.ledger, gs, i);
  }

  /**
   * A gauge request, delivered at any time for the first time or again, is tolerated exactly
   * when none of its IDs is burnt.
   */
  lemma {:induction false} GaugeToleratedIff(s: Sys, n: nat, o: seq<Uuid>)
    requires Numbered(s) && Booked(s) && Tracks(s) && n in s.inputs && KnowsClusters(s.inputs[n], o)
    requires IsOrder(o, Latest(s.inputs[n].heartbeats).Keys)
    ensures var gs := GaugeRequest(s.inputs[n], o);
            AllTolerated(gs, Outcomes(s.ledger, gs)) <==> forall t :: t in gs ==> t.id !in s.ledger.failed
  {
    var gs := GaugeRequest(s.inputs[n], o);
    var os := Outcomes(s.ledger, gs);
    GaugeIdsDistinct(s, n, o);
    forall i | 0 <= i < |gs| ensures Tolerated(gs[i].kind.VoidPending?, os[i]) <==> gs[i].id !in s.ledger.failed {
      GaugeToleratedAt(s, n, o, i);
    }
    if AllTolerated(gs, os) {
      forall t | t in gs ensures t.id !in s.ledger.failed {
        var i :| 0 <= i < |gs| && gs[i] == t;
      }
    }
  }

  // ---------------------------------------------------------------------------------------------
  // A whole attempt
  // ---------------------------------------------------------------------------------------------

  lemma {:induction false} AttemptOutcome(s: Sys, n: nat, o: seq<Uuid>)
    requires Inv(s) && n in s.inputs && KnowsClusters(s.inputs[n], o)
    requires IsOrder(o, Latest(s.inputs[n].heartbeats).Keys)
    ensures var us, gs := UsageRequest(s.inputs[n]), GaugeRequest(s.inputs[n], o);
            AllTolerated(gs, Outcomes(Run(s.ledger, us), gs)) <==> forall t :: t in gs ==> t.id !in s.ledger.failed
  {
    var us, gs := UsageRequest(s.inputs[n]), GaugeRequest(s.inputs[n], o);
    var s' := s.(ledger := Run(s.ledger, us));
    UsageTransfersFit(s, n);
    UsageIssued(s.config, s.inputs, s.credits, n);
    DeliverBooked(s, us);
    GrowTracks(s, s'.ledger);
    GaugeToleratedIff(s', n, o);
    forall t | t in gs ensures t.id in s'.ledger.failed <==> t.id in s.ledger.failed {
      GaugeIdsCarryNumber(s, n, o, t);
      OthersKeepId(s.ledger, us, t.id);
    }
  }

  /**
   * Any attempt of any flush, in any reached state and any order of clusters, the first as well
   * as any other: it succeeds exactly when every charge is clean and no reservation or void of
   * the flush is burnt. A charge is clean when it stands as it is sent, when it is the first of
   * its ID, accepted or refused, or when it repeats a first one that the wallet had room for.
   */
  lemma {:induction false} AttemptSucceedsIff(cfg: Config, es: seq<Event>, n: nat, o: seq<Uuid>)
    requires n in Exec(Init(cfg), es).inputs && KnowsClusters(Exec(Init(cfg), es).inputs[n], o)
    requires IsOrder(o, Latest(Exec(Init(cfg), es).inputs[n].heartbeats).Keys)
    ensures var s := Exec(Init(cfg), es);
            var us, gs := UsageRequest(s.inputs[n]), GaugeRequest(s.inputs[n], o);
            AllClassifiable(Outcomes(s.ledger, us)) && AllTolerated(gs, Outcomes(Run(s.ledger, us), gs)) <==>
              AllClean(s.ledger, us) && (forall t :: t in gs ==> t.id !in s.ledger.failed)
  {
    var s := Exec(Init(cfg), es);
    ExecInv(cfg, es);
    UsageTransfersFit(s, n);
    ClassifiableIffClean(s.ledger, UsageRequest(s.inputs[n]));
    AttemptOutcome(s, n, o);
  }

  /**
   * A further attempt of a flush whose usage request was delivered, whether its gauge request
   * was or not: it charges nothing again, and it succeeds exactly when all charges stand as they
   * are sent and no reservation or void of the flush is burnt. When the gauge request was
   * delivered too, it leaves the ledger as it is.
   */
  lemma {:induction false} RetriedAttemptSucceedsIff(cfg: Config, es: seq<Event>, n: nat, o: seq<Uuid>)
    requires n in Exec(Init(cfg), es).inputs && KnowsClusters(Exec(Init(cfg), es).inputs[n], o)
    requires IsOrder(o, Latest(Exec(Init(cfg), es).inputs[n].heartbeats).Keys)
    requires forall t :: t in UsageRequest(Exec(Init(cfg), es).inputs[n]) ==> Settled(Exec(Init(cfg), es).ledger, t)
    ensures var s := Exec(Init(cfg), es);
            var us, gs := UsageRequest(s.inputs[n]), GaugeRequest(s.inputs[n], o);
            && Run(s.ledger, us) == s.ledger
            && (AllClassifiable(Outcomes(s.ledger, us)) && AllTolerated(gs, Outcomes(Run(s.ledger, us), gs)) <==>
                  (forall t :: t in us ==> Recorded(s.ledger, t)) && (forall t :: t in gs ==> t.id !in s.ledger.failed))
            && ((forall t :: t in gs ==> Settled(s.ledger, t)) ==> Run(s.ledger, gs) == s.ledger)
  {
    var s := Exec(Init(cfg), es);
    ExecInv(cfg, es);
    UsageAgain(s, n);
    AttemptOutcome(s, n, o);
    GaugeAgain(s, n, o);
  }

  lemma {:induction false} GaugeAgain(s: Sys, n: nat, o: seq<Uuid>)
    requires Numbered(s) && Booked(s) && n in s.inputs && KnowsClusters(s.inputs[n], o)
    ensures var gs := GaugeRequest(s.inputs[n], o);
            (forall t :: t in gs ==> Settled(s.ledger, t)) ==> Run(s.ledger, gs) == s.ledger
  {
    var gs := GaugeRequest(s.inputs[n], o);
    GaugeIssued(s.config, s.inputs, s.credits, n, o);
    if forall t :: t in gs ==> Settled(s.ledger, t) {
      forall t | t in gs ensures t.debit in s.ledger.accounts && t.credit in s.ledger.accounts {
        GenuineHasAccounts(s, t);
      }
      SettledBatchIsIdle(s.ledger, gs);
    }
  }
}
