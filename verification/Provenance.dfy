/** Where every entry on the ledger and every balance comes from, in the terms of what was received and asked for. */
module Provenance {
  import opened Domain
  import opened TransferIds
  import opened Maps
  import opened Ledger
  import opened Transfers
  import opened Activities
  import opened Protocol
  import opened Invariant
  import opened Preservation
  import opened Guarantees

  // ---------------------------------------------------------------------------------------------
  // Every entry
  // ---------------------------------------------------------------------------------------------

  /** A usage entry moves one heartbeat's CPU time or memory from the wallet to the sink. */
  ghost predicate IsUsageEntry(s: Sys, t: Transfer, hb: Heartbeat) {
    var r, tenant := t.id.ledger, s.config.tenant;
    && hb in s.received && ReportsUse(hb, r)
    && t == Transfer(UsageId(hb.cluster, hb.seqNo, r), Wallet(tenant, r), Sink(r),
                     ToUint64(if r.CpuHours? then hb.cpuMilliseconds else hb.memoryMBSeconds),
                     Posted, hb.cluster, ToUint64(hb.timestampNs))
  }

  /** A credit entry moves the first allocation, or a credit that was asked for, from the operator to the wallet. */
  predicate IsCreditEntry(s: Sys, t: Transfer) {
    var n, r, tenant := t.id.seqNo, t.id.ledger, s.config.tenant;
    && t.id == AllocationId(tenant, n, r)
    && t.debit == Operator(r) && t.credit == Wallet(tenant, r) && t.kind == Posted && t.userData128 == tenant
    && (|| (n == s.config.periodStart && r in s.config.initial && t.amount == s.config.initial[r] && t.userData64 == n)
        || (n in s.credits && s.credits[n] == CreditRequest(r, t.amount) && t.userData64 == 0))
  }

  /** A reservation holds the active nodes of a cluster's latest heartbeat in the flush, unless there are none. */
  predicate IsReservationEntry(s: Sys, t: Transfer) {
    t.id.GaugePendingId? &&
    var n, c, tenant := t.id.seqNo, t.id.cluster, s.config.tenant;
    && n in s.inputs && c in Latest(s.inputs[n].heartbeats)
    && var hb := Latest(s.inputs[n].heartbeats)[c];
       && hb.activeNodes != 0
       && t == Transfer(GaugePendingId(tenant, n, c, ActiveNodes), Wallet(tenant, ActiveNodes), Sink(ActiveNodes),
                        ToUint64(hb.activeNodes), Pending, c, ToUint64(hb.timestampNs))
  }

  /** A void names the reservation that its flush found tracked for the cluster. */
  predicate IsVoidEntry(s: Sys, t: Transfer) {
    t.id.GaugeVoidId? &&
    var n, c, tenant := t.id.seqNo, t.id.cluster, s.config.tenant;
    && n in s.inputs && c in s.inputs[n].pendingGauge
    && t.id == GaugeVoidId(tenant, n, c, ActiveNodes)
    && t.debit == Wallet(tenant, ActiveNodes) && t.credit == Sink(ActiveNodes)
    && t.kind == VoidPending(s.inputs[n].pendingGauge[c])
  }

  ghost predicate Explained(s: Sys, t: Transfer) {
    (exists hb :: IsUsageEntry(s, t, hb)) || IsCreditEntry(s, t) || IsReservationEntry(s, t) || IsVoidEntry(s, t)
  }

  lemma {:induction false} UsageIsExplained(s: Sys, t: Transfer)
    requires FromHeartbeat(s.config, s.inputs, t) && HistoryOk(s.wf.batch, s.inputs, s.received)
    ensures Explained(s, t)
  {
    var n, hb :| n in s.inputs && hb in s.inputs[n].heartbeats && Billed(hb, t.id.ledger)
                 && t == UsageTransfer(s.config.tenant, hb, t.id.ledger);
    assert IsUsageEntry(s, t, hb);
  }

  lemma {:induction false} EntryIsExplained(s: Sys, t: Transfer)
    requires Genuine(s.config, s.inputs, s.credits, t) && HistoryOk(s.wf.batch, s.inputs, s.received)
    ensures Explained(s, t)
  {
    match t.id {
      case UsageId(_, _, _) => UsageIsExplained(s, t);
      case AllocationId(_, _, _) => assert IsCreditEntry(s, t);
      case GaugePendingId(_, n, c, _) =>
        LatestIsHighest(s.inputs[n].heartbeats);
        assert IsReservationEntry(s, t);
      case GaugeVoidId(_, _, _, _) => assert IsVoidEntry(s, t);
    }
  }

  /** In every state, every entry on the ledger is explained by what was received and asked for. */
  lemma {:induction false} LedgerIsExplained(cfg: Config, es: seq<Event>)
    ensures var s := Exec(Init(cfg), es);
            forall id :: id in s.ledger.transfers ==>
              s.ledger.transfers[id].id == id && Explained(s, s.ledger.transfers[id])
  {
    var s := Exec(Init(cfg), es);
    assert Booked(s) && Batched(s) by { ExecInv(cfg, es); }
    forall id | id in s.ledger.transfers ensures Explained(s, s.ledger.transfers[id]) {
      assert Genuine(s.config, s.inputs, s.credits, s.ledger.transfers[id]);
      EntryIsExplained(s, s.ledger.transfers[id]);
    }
  }

  // ---------------------------------------------------------------------------------------------
  // Every balance
  // ---------------------------------------------------------------------------------------------

  /** Two columns of two accounts, and what one transfer adds to each. */
  predicate Mirrors(c: Column, a: Account, d: Column, b: Account, t: Transfer) {
    Contribution(c, a, t) == Contribution(d, b, t)
  }

  lemma {:induction false} EntryMirrors(s: Sys, t: Transfer, r: Resource)
    requires Genuine(s.config, s.inputs, s.credits, t)
    ensures Mirrors(DebitsPosted, Operator(r), CreditsPosted, WalletOf(s, r), t)
    ensures Mirrors(CreditsPosted, Sink(r), DebitsPosted, WalletOf(s, r), t)
    ensures Mirrors(CreditsPending, Sink(r), DebitsPending, WalletOf(s, r), t)
    ensures Contribution(CreditsPosted, Operator(r), t) == 0
    ensures forall c: Column :: c.OfPending() ==> Contribution(c, Operator(r), t) == 0
    ensures Contribution(DebitsPosted, Sink(r), t) == 0 && Contribution(DebitsPending, Sink(r), t) == 0
    ensures Contribution(CreditsPending, WalletOf(s, r), t) == 0
  {
  }

  lemma {:induction false} ColumnsMirror(l: State, c: Column, a: Account, d: Column, b: Account)
    requires BalancesAreSums(l) && a in l.accounts && b in l.accounts && c.OfPending() == d.OfPending()
    requires forall id :: id in l.transfers ==> Mirrors(c, a, d, b, l.transfers[id])
    ensures Field(l.accounts[a], c) == Field(l.accounts[b], d)
  {
    var m := Counted(l, c);
    SumRestrict(m, Weight(c, a), m, Weight(d, b));
  }

  lemma {:induction false} ColumnIsZero(l: State, c: Column, a: Account)
    requires BalancesAreSums(l) && a in l.accounts
    requires forall id :: id in l.transfers ==> Contribution(c, a, l.transfers[id]) == 0
    ensures Field(l.accounts[a], c) == 0
  {
    SumZero(Counted(l, c), Weight(c, a));
  }

  /** The operator has paid what the wallet was credited; the sink holds what it was charged and has reserved. */
  predicate OneWay(l: State, tenant: Uuid, r: Resource) {
    var o, w, k := Operator(r), Wallet(tenant, r), Sink(r);
    && o in l.accounts && w in l.accounts && k in l.accounts
    && var b := l.accounts[w];
       && b.creditsPending == 0
       && l.accounts[o] == Balance(0, b.creditsPosted, 0, 0)
       && l.accounts[k] == Balance(0, 0, b.debitsPending, b.debitsPosted)
  }

  lemma {:induction false} BooksAreOneWay(s: Sys, r: Resource)
    requires Booked(s)
    ensures OneWay(s.ledger, s.config.tenant, r)
  {
    var l, o, w, k := s.ledger, Operator(r), WalletOf(s, r), Sink(r);
    EveryResource(r);
    forall id | id in l.transfers ensures Genuine(s.config, s.inputs, s.credits, l.transfers[id]) {
    }
    forall id | id in l.transfers
      ensures Mirrors(DebitsPosted, o, CreditsPosted, w, l.transfers[id])
      ensures Mirrors(CreditsPosted, k, DebitsPosted, w, l.transfers[id])
      ensures Mirrors(CreditsPending, k, DebitsPending, w, l.transfers[id])
      ensures Contribution(CreditsPosted, o, l.transfers[id]) == 0
      ensures Contribution(DebitsPending, o, l.transfers[id]) == 0
      ensures Contribution(CreditsPending, o, l.transfers[id]) == 0
      ensures Contribution(DebitsPosted, k, l.transfers[id]) == 0
      ensures Contribution(DebitsPending, k, l.transfers[id]) == 0
      ensures Contribution(CreditsPending, w, l.transfers[id]) == 0
    {
      EntryMirrors(s, l.transfers[id], r);
    }
    ColumnsMirror(l, DebitsPosted, o, CreditsPosted, w);
    ColumnsMirror(l, CreditsPosted, k, DebitsPosted, w);
    ColumnsMirror(l, CreditsPending, k, DebitsPending, w);
    ColumnIsZero(l, CreditsPosted, o);
    ColumnIsZero(l, DebitsPending, o);
    ColumnIsZero(l, CreditsPending, o);
    ColumnIsZero(l, DebitsPosted, k);
    ColumnIsZero(l, DebitsPending, k);
    ColumnIsZero(l, CreditsPending, w);
  }

  /**
   * In every state, for every resource: what the wallet was credited, the operator has paid; what
   * the wallet was charged and has reserved, the sink holds; and nothing flows any other way.
   */
  lemma {:induction false} MoneyFlowsOneWay(cfg: Config, es: seq<Event>, r: Resource)
    ensures OneWay(Exec(Init(cfg), es).ledger, cfg.tenant, r)
  {
    var s := Exec(Init(cfg), es);
    ConfigStays(cfg, es);
    assert Booked(s) by { ExecInv(cfg, es); }
    BooksAreOneWay(s, r);
  }

  lemma {:induction false} NextKeepsConfig(s: Sys, e: Event)
    ensures Next(s, e).config == s.config
  {
  }

  lemma {:induction false} ConfigStays(cfg: Config, es: seq<Event>)
    ensures Exec(Init(cfg), es).config == cfg
    decreases |es|
  {
    if es != [] {
      ConfigStays(cfg, es[..|es| - 1]);
      NextKeepsConfig(Exec(Init(cfg), es[..|es| - 1]), es[|es| - 1]);
    }
  }

  // ---------------------------------------------------------------------------------------------
  // What was received and asked for
  // ---------------------------------------------------------------------------------------------

  /** The heartbeats that were signalled while no flush was waiting, in order. */
  ghost function Signalled(cfg: Config, es: seq<Event>): seq<Heartbeat> {
    if es == [] then []
    else
      var zs, e := es[..|es| - 1], es[|es| - 1];
      Signalled(cfg, zs)
      + if e.HeartbeatSignal? && e.hb.seqNo >= 1 && Exec(Init(cfg), zs).flushing.None? then [e.hb] else []
  }

  /** Event `i` asks for a credit and takes number `n` for it. */
  ghost predicate AsksFor(cfg: Config, es: seq<Event>, i: nat, n: nat, c: CreditRequest)
    requires i < |es|
  {
    && es[i].CreditStart? && es[i].amount > 0
    && c.resource == es[i].resource && c.amount == es[i].amount
    && n == Exec(Init(cfg), es[..i]).wf.flushSeqNo + 1
  }

  ghost predicate AskedFor(cfg: Config, es: seq<Event>, n: nat, c: CreditRequest) {
    exists i :: 0 <= i < |es| && AsksFor(cfg, es, i, n, c)
  }

  lemma {:induction false} AskedForStays(cfg: Config, es: seq<Event>, n: nat, c: CreditRequest)
    requires es != [] && AskedFor(cfg, es[..|es| - 1], n, c)
    ensures AskedFor(cfg, es, n, c)
  {
    var zs := es[..|es| - 1];
    var i :| 0 <= i < |zs| && AsksFor(cfg, zs, i, n, c);
    assert zs[..i] == es[..i];
    assert AsksFor(cfg, es, i, n, c);
  }

  /** Nobody takes a number without using it. */
  ghost predicate NoGaps(s: Sys) {
    forall k :: 1 <= k <= s.wf.flushSeqNo ==> k in s.inputs || k in s.credits
  }

  lemma {:induction false} NextRecords(s: Sys, e: Event)
    ensures Next(s, e).received ==
            s.received + if e.HeartbeatSignal? && e.hb.seqNo >= 1 && s.flushing.None? then [e.hb] else []
    ensures Next(s, e).credits ==
            if e.CreditStart? && e.amount > 0
            then s.credits[s.wf.flushSeqNo + 1 := CreditRequest(e.resource, e.amount)] else s.credits
    ensures NoGaps(s) ==> NoGaps(Next(s, e))
  {
    assert s.received + [] == s.received;
  }

  /**
   * In every state: the received heartbeats are those that were signalled, the credits are those
   * that were asked for, with resource and amount, and the numbers that flushes and credits took
   * have no gaps.
   */
  lemma {:induction false} RecordFollowsEvents(cfg: Config, es: seq<Event>)
    ensures var s := Exec(Init(cfg), es);
            && s.received == Signalled(cfg, es)
            && (forall n :: n in s.credits ==> AskedFor(cfg, es, n, s.credits[n]))
            && NoGaps(s)
    decreases |es|
  {
    if es != [] {
      var zs, e := es[..|es| - 1], es[|es| - 1];
      var z, s := Exec(Init(cfg), zs), Exec(Init(cfg), es);
      RecordFollowsEvents(cfg, zs);
      NextRecords(z, e);
      forall n | n in s.credits ensures AskedFor(cfg, es, n, s.credits[n]) {
        CreditWasAskedFor(cfg, es, z, s.credits, n);
      }
    }
  }

  lemma {:induction false} CreditWasAskedFor(cfg: Config, es: seq<Event>, z: Sys, credits: map<nat, CreditRequest>,
      n: nat)
    requires es != [] && z == Exec(Init(cfg), es[..|es| - 1]) && n in credits
    requires forall m :: m in z.credits ==> AskedFor(cfg, es[..|es| - 1], m, z.credits[m])
    requires var e := es[|es| - 1];
             credits == if e.CreditStart? && e.amount > 0
                        then z.credits[z.wf.flushSeqNo + 1 := CreditRequest(e.resource, e.amount)] else z.credits
    ensures AskedFor(cfg, es, n, credits[n])
  {
    if n in z.credits && credits[n] == z.credits[n] {
      AskedForStays(cfg, es, n, credits[n]);
    } else {
      assert AsksFor(cfg, es, |es| - 1, n, credits[n]);
    }
  }
}
