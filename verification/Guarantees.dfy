/** What the invariant means for a tenant: the promises of the accounting system, over every run. */
module Guarantees {
  import opened Domain
  import opened TransferIds
  import opened Maps
  import opened Ledger
  import opened Transfers
  import opened Activities
  import opened Workflow
  import opened Protocol
  import opened Invariant
  import opened Preservation
  import opened Charging

  function WalletOf(s: Sys, r: Resource): Account {
    Wallet(s.config.tenant, r)
  }

  lemma {:induction false} WalletExists(s: Sys, r: Resource)
    requires Booked(s)
    ensures WalletOf(s, r) in s.ledger.accounts
  {
    EveryResource(r);
  }

  // ---------------------------------------------------------------------------------------------
  // Limits and double entry
  // ---------------------------------------------------------------------------------------------

  lemma {:induction false} NoContribution(s: Sys, c: Column, r: Resource)
    requires Booked(s)
    requires c == if r.IsGauge() then DebitsPosted else DebitsPending
    ensures WalletOf(s, r) in s.ledger.accounts && Field(s.ledger.accounts[WalletOf(s, r)], c) == 0
  {
    WalletExists(s, r);
    var m := Counted(s.ledger, c);
    forall id | id in m ensures Weight(c, WalletOf(s, r))(id, m[id]) == 0 {
      assert Genuine(s.config, s.inputs, s.credits, s.ledger.transfers[id]);
    }
    SumZero(m, Weight(c, WalletOf(s, r)));
  }

  /**
   * Under every interleaving: no wallet is ever overdrawn, every ledger balances, usage wallets
   * hold no reservations and the gauge wallet holds no posted debits.
   */
  lemma {:induction false} LimitsHold(cfg: Config, es: seq<Event>)
    ensures var s := Exec(Init(cfg), es);
            && DoubleEntry(s.ledger)
            && forall r: Resource ::
                 && WalletOf(s, r) in s.ledger.accounts
                 && WithinCredits(s.ledger.accounts[WalletOf(s, r)])
                 && (r.IsGauge() ==> s.ledger.accounts[WalletOf(s, r)].debitsPosted == 0)
                 && (!r.IsGauge() ==> s.ledger.accounts[WalletOf(s, r)].debitsPending == 0)
  {
    var s := Exec(Init(cfg), es);
    ExecInv(cfg, es);
    forall r: Resource
      ensures WalletOf(s, r) in s.ledger.accounts && WithinCredits(s.ledger.accounts[WalletOf(s, r)])
      ensures r.IsGauge() ==> s.ledger.accounts[WalletOf(s, r)].debitsPosted == 0
      ensures !r.IsGauge() ==> s.ledger.accounts[WalletOf(s, r)].debitsPending == 0
    {
      WalletExists(s, r);
      NoContribution(s, if r.IsGauge() then DebitsPosted else DebitsPending, r);
    }
  }

  // ---------------------------------------------------------------------------------------------
  // Nothing is charged twice
  // ---------------------------------------------------------------------------------------------

  /** The committed usage keys of a resource: cluster and sequence number, each at most once. */
  function Charges(l: State, r: Resource): map<TransferId, Transfer> {
    l.transfers - (set id | id in l.transfers && !(id.UsageId? && id.ledger == r))
  }

  function AmountOf(): (TransferId, Transfer) -> int {
    (id: TransferId, t: Transfer) => t.amount
  }

  lemma {:induction false} UsageWeight(s: Sys, r: Resource, id: TransferId)
    requires Booked(s) && id in s.ledger.transfers && !r.IsGauge()
    ensures Weight(DebitsPosted, WalletOf(s, r))(id, s.ledger.transfers[id]) ==
            if id in Charges(s.ledger, r) then s.ledger.transfers[id].amount else 0
  {
    assert Genuine(s.config, s.inputs, s.credits, s.ledger.transfers[id]);
  }

  /** What a wallet was charged is the sum over its committed keys. */
  lemma {:induction false} ChargedIsSumOfKeys(s: Sys, r: Resource)
    requires Inv(s) && !r.IsGauge()
    ensures WalletOf(s, r) in s.ledger.accounts
    ensures s.ledger.accounts[WalletOf(s, r)].debitsPosted == Sum(Charges(s.ledger, r), AmountOf())
  {
    WalletExists(s, r);
    var l, cs, w := s.ledger, Charges(s.ledger, r), WalletOf(s, r);
    forall id | id in l.transfers
      ensures Weight(DebitsPosted, w)(id, l.transfers[id]) == if id in cs then AmountOf()(id, l.transfers[id]) else 0
    {
      UsageWeight(s, r, id);
    }
    SumRestrict(l.transfers, Weight(DebitsPosted, w), cs, AmountOf());
    assert Field(l.accounts[w], DebitsPosted) == Sum(Counted(l, DebitsPosted), Weight(DebitsPosted, w));
  }

  /** The heartbeat reports a use of the resource: CPU time or memory, never zero. */
  predicate ReportsUse(hb: Heartbeat, r: Resource) {
    (r.CpuHours? && hb.cpuMilliseconds != 0) || (r.MemoryGBHours? && hb.memoryMBSeconds != 0)
  }

  /** The charge under a key is the figure that some received heartbeat with that key reported. */
  ghost predicate ReportedBy(s: Sys, id: TransferId)
    requires id in s.ledger.transfers && id.UsageId?
  {
    exists hb :: hb in s.received && hb.cluster == id.cluster && hb.seqNo == id.seqNo && ReportsUse(hb, id.ledger)
                 && s.ledger.transfers[id].amount ==
                    ToUint64(if id.ledger.CpuHours? then hb.cpuMilliseconds else hb.memoryMBSeconds)
  }

  lemma {:induction false} ChargeIsReported(s: Sys, id: TransferId)
    requires Booked(s) && Batched(s) && id in s.ledger.transfers && id.UsageId?
    ensures ReportedBy(s, id)
  {
    var t := s.ledger.transfers[id];
    assert Genuine(s.config, s.inputs, s.credits, t);
    var n, hb :| n in s.inputs && hb in s.inputs[n].heartbeats && Billed(hb, t.id.ledger)
                 && t == UsageTransfer(s.config.tenant, hb, t.id.ledger);
    assert hb in s.received;
  }

  /** The charge was committed or refused. */
  predicate DecidedKey(l: State, hb: Heartbeat, r: Resource) {
    UsageId(hb.cluster, hb.seqNo, r) in l.transfers || UsageId(hb.cluster, hb.seqNo, r) in l.failed
  }

  /** Every heartbeat of a completed flush was charged or refused, for each resource it bills. */
  lemma {:induction false} CompletedIsDecided(s: Sys, n: nat, hb: Heartbeat, r: Resource)
    requires Inv(s) && n in s.done && n in s.inputs && hb in s.inputs[n].heartbeats && ReportsUse(hb, r)
    ensures DecidedKey(s.ledger, hb, r)
  {
    var t := UsageTransfer(s.config.tenant, hb, r);
    UsageBatchMembers(s.config.tenant, s.inputs[n].heartbeats, t);
    assert FlushResolved(s.config, n, s.inputs[n], s.ledger, s.wf.pendingGauge);
    assert t in UsageRequest(s.inputs[n]);
  }

  /**
   * With duplicate signals, duplicates inside a batch, lost replies, retries, late attempts,
   * retained batches and restarts: what a usage wallet was charged is the sum over distinct
   * committed (cluster, sequence number) keys, each for the CPU time or memory that a heartbeat
   * with that key reported; and no figure that completed was passed over.
   */
  lemma {:induction false} NothingIsChargedTwice(cfg: Config, es: seq<Event>, r: Resource)
    requires !r.IsGauge()
    ensures var s := Exec(Init(cfg), es);
            && WalletOf(s, r) in s.ledger.accounts
            && s.ledger.accounts[WalletOf(s, r)].debitsPosted == Sum(Charges(s.ledger, r), AmountOf())
            && (forall id :: id in Charges(s.ledger, r) ==> ReportedBy(s, id))
            && (forall n, hb :: n in s.done && n in s.inputs && hb in s.inputs[n].heartbeats && ReportsUse(hb, r) ==>
                  DecidedKey(s.ledger, hb, r))
  {
    var s := Exec(Init(cfg), es);
    ExecInv(cfg, es);
    ChargedIsSumOfKeys(s, r);
    forall id | id in Charges(s.ledger, r) ensures ReportedBy(s, id) {
      ChargeIsReported(s, id);
    }
    forall n, hb | n in s.done && n in s.inputs && hb in s.inputs[n].heartbeats && ReportsUse(hb, r)
      ensures DecidedKey(s.ledger, hb, r)
    {
      CompletedIsDecided(s, n, hb, r);
    }
  }

  /**
   * `s'` is `s` after the usage request of flush `n`. What resource `r` is charged is the fold over
   * the batch, and the reply, if there is one, flags it as its last use in the batch fared.
   */
  ghost predicate InBatchOrder(s: Sys, s': Sys, n: nat, r: Resource)
    requires n in s.inputs
  {
    var w, hbs, us := WalletOf(s, r), s.inputs[n].heartbeats, UsageRequest(s.inputs[n]);
    var per := PerResource(us, Outcomes(s.ledger, us));
    && w in s.ledger.accounts && w in s'.ledger.accounts
    && s'.ledger.accounts[w].debitsPosted == Charged(s.ledger, s.config.tenant, r, hbs)
    && (AllClassifiable(Outcomes(s.ledger, us)) ==>
          && UsageReply(n, per) in s'.usageReplies
          && (r in ExceededAfter(s.wf.exceeded, per) <==>
              var last := LastRefused(s.ledger, s.config.tenant, r, hbs);
              if last.Some? then last.value else r in s.wf.exceeded))
  }

  lemma {:induction false} RequestInOrder(s: Sys, n: nat, r: Resource)
    requires Numbered(s) && Booked(s) && n in s.inputs && !r.IsGauge()
    ensures InBatchOrder(s, SendUsage(s, n), n, r)
  {
    var us := UsageRequest(s.inputs[n]);
    EveryResource(r);
    ChargedInOrder(s.ledger, s.config.tenant, r, s.inputs[n].heartbeats);
    ReportsLastUse(s.ledger, s.config.tenant, r, s.inputs[n].heartbeats);
    if AllClassifiable(Outcomes(s.ledger, us)) {
      PerResourceIsLast(us, Outcomes(s.ledger, us), r);
    }
  }

  lemma {:induction false} DeliverUsageSends(s: Sys, n: nat)
    requires n in s.inputs
    ensures Next(s, DeliverUsage(n)) == SendUsage(s, n)
  {
  }

  lemma {:induction false} DeliveredInOrder(s: Sys, n: nat, r: Resource)
    requires Numbered(s) && Booked(s) && n in s.inputs && !r.IsGauge()
    ensures InBatchOrder(s, Next(s, DeliverUsage(n)), n, r)
  {
    DeliverUsageSends(s, n);
    RequestInOrder(s, n, r);
  }

  /**
   * Whenever a flush's usage request reaches the ledger: its heartbeats take their turns in the
   * order of the batch, and each new one is charged exactly when its figure fits what the earlier
   * ones left. A resource is reported, and then flagged, as the last heartbeat that uses it fared.
   */
  lemma {:induction false} ChargesFollowBatchOrder(cfg: Config, es: seq<Event>, n: nat, r: Resource)
    requires n in Exec(Init(cfg), es).inputs && !r.IsGauge()
    ensures InBatchOrder(Exec(Init(cfg), es), Next(Exec(Init(cfg), es), DeliverUsage(n)), n, r)
  {
    var s := Exec(Init(cfg), es);
    assert Numbered(s) && Booked(s) by { ExecInv(cfg, es); }
    DeliveredInOrder(s, n, r);
  }

  // ---------------------------------------------------------------------------------------------
  // Reservations
  // ---------------------------------------------------------------------------------------------

  predicate IsTracked(s: Sys, id: TransferId) {
    id.GaugePendingId? && id.cluster in s.wf.pendingGauge && s.wf.pendingGauge[id.cluster] == id
  }

  /** Committed by a flush that did not complete: it is waiting or has given up. */
  predicate LeftBehind(s: Sys, id: TransferId) {
    id.GaugePendingId? && id in s.ledger.transfers && id.seqNo !in s.done
  }

  /** Only reservations of completed flushes are ever voided. */
  lemma {:induction false} VoidedWasCompleted(s: Sys, id: TransferId)
    requires Booked(s) && Tracks(s) && id in s.ledger.voidedBy
    ensures id.GaugePendingId? && id.seqNo in s.done
    ensures var v := s.ledger.voidedBy[id];
            && v in s.ledger.transfers && v.GaugeVoidId? && v.seqNo in s.inputs && id.cluster == v.cluster
            && v.cluster in Latest(s.inputs[v.seqNo].heartbeats) && id.seqNo < v.seqNo
  {
    var v := s.ledger.voidedBy[id];
    assert Genuine(s.config, s.inputs, s.credits, s.ledger.transfers[v]);
    var n := v.seqNo;
    assert TracksAll(s.config, s.inputs, s.done, s.ledger, s.inputs[n].pendingGauge, n);
    assert TracksOne(s.config, s.inputs, s.done, s.ledger, v.cluster, s.inputs[n].pendingGauge[v.cluster], n);
  }

  lemma {:induction false} OpenIsTrackedOrLeft(s: Sys, id: TransferId)
    requires Inv(s)
    ensures IsOpen(s.ledger, id) <==> (IsTracked(s, id) && id !in s.ledger.voidedBy) || LeftBehind(s, id)
  {
    var l := s.ledger;
    if id in l.transfers {
      assert Genuine(s.config, s.inputs, s.credits, l.transfers[id]);
    }
    if IsOpen(l, id) && id.seqNo in s.done {
      assert FlushResolved(s.config, id.seqNo, s.inputs[id.seqNo], l, s.wf.pendingGauge);
      assert ResolvedAt(s.config, id.seqNo, s.inputs[id.seqNo], l, s.wf.pendingGauge, id.cluster);
    }
    if IsTracked(s, id) {
      assert TracksOne(s.config, s.inputs, s.done, l, id.cluster, id, s.wf.flushSeqNo + 1);
    }
    if LeftBehind(s, id) && id in l.voidedBy {
      VoidedWasCompleted(s, id);
    }
  }

  /** No flush that did not complete has got its gauge request to the ledger. */
  ghost predicate NothingLeftBehind(s: Sys) {
    forall id :: id in s.ledger.transfers && (id.GaugePendingId? || id.GaugeVoidId?) ==> id.seqNo in s.done
  }

  /** A completed flush never leaves what it voided tracked. */
  lemma {:induction false} VoidedIsNotTracked(s: Sys, id: TransferId)
    requires Inv(s) && id in s.ledger.voidedBy && s.ledger.voidedBy[id].seqNo in s.done
    ensures !IsTracked(s, id)
  {
    VoidedWasCompleted(s, id);
    var v := s.ledger.voidedBy[id];
    assert FlushResolved(s.config, v.seqNo, s.inputs[v.seqNo], s.ledger, s.wf.pendingGauge);
    assert ResolvedAt(s.config, v.seqNo, s.inputs[v.seqNo], s.ledger, s.wf.pendingGauge, v.cluster);
  }

  lemma {:induction false} OpenIffTracked(s: Sys, id: TransferId)
    requires Inv(s) && NothingLeftBehind(s)
    ensures IsOpen(s.ledger, id) <==> IsTracked(s, id)
  {
    OpenIsTrackedOrLeft(s, id);
    if id in s.ledger.voidedBy {
      VoidedWasCompleted(s, id);
      VoidedIsNotTracked(s, id);
    }
  }

  /** A cluster's reserved amount: the active nodes of its heartbeat at the high-water mark. */
  function ReservedBy(s: Sys): (Uuid, TransferId) -> int {
    (c: Uuid, id: TransferId) =>
      if id.seqNo in s.inputs && c in Latest(s.inputs[id.seqNo].heartbeats)
      then ToUint64(Latest(s.inputs[id.seqNo].heartbeats)[c].activeNodes) else 0
  }

  lemma {:induction false} TrackedByCluster(s: Sys, c: Uuid)
    requires Inv(s) && c in s.wf.pendingGauge
    ensures var id := s.wf.pendingGauge[c]; IsTracked(s, id) && id.cluster == c && id in s.ledger.transfers
  {
    assert TracksOne(s.config, s.inputs, s.done, s.ledger, c, s.wf.pendingGauge[c], s.wf.flushSeqNo + 1);
  }

  lemma {:induction false} ReservationWeight(s: Sys, id: TransferId)
    requires Booked(s) && id in s.ledger.transfers && id.GaugePendingId?
    ensures Weight(DebitsPending, WalletOf(s, ActiveNodes))(id, s.ledger.transfers[id]) == ReservedBy(s)(id.cluster, id)
  {
    assert Genuine(s.config, s.inputs, s.credits, s.ledger.transfers[id]);
  }

  lemma {:induction false} TrackedIsOpen(s: Sys, c: Uuid)
    requires Inv(s) && NothingLeftBehind(s) && c in s.wf.pendingGauge
    ensures var id := s.wf.pendingGauge[c];
            && id in Open(s.ledger) && id.cluster == c
            && Weight(DebitsPending, WalletOf(s, ActiveNodes))(id, Open(s.ledger)[id]) == ReservedBy(s)(c, id)
  {
    TrackedByCluster(s, c);
    OpenIffTracked(s, s.wf.pendingGauge[c]);
    ReservationWeight(s, s.wf.pendingGauge[c]);
  }

  lemma {:induction false} OpenIsSomeTracked(s: Sys, id: TransferId)
    requires Inv(s) && NothingLeftBehind(s) && id in Open(s.ledger)
    ensures id in s.wf.pendingGauge.Values
  {
    OpenIffTracked(s, id);
    assert s.wf.pendingGauge[id.cluster] == id;
  }

  lemma {:induction false} OpenSumIsTrackedSum(s: Sys)
    requires Inv(s) && NothingLeftBehind(s)
    ensures Sum(Open(s.ledger), Weight(DebitsPending, WalletOf(s, ActiveNodes))) ==
            Sum(s.wf.pendingGauge, ReservedBy(s))
  {
    var w, p, open := WalletOf(s, ActiveNodes), s.wf.pendingGauge, Open(s.ledger);
    forall c | c in p
      ensures p[c] in open && p[c].cluster == c && Weight(DebitsPending, w)(p[c], open[p[c]]) == ReservedBy(s)(c, p[c])
    {
      TrackedIsOpen(s, c);
    }
    forall id | id in open ensures id in p.Values {
      OpenIsSomeTracked(s, id);
    }
    SumRelabel(open, Weight(DebitsPending, w), p, ReservedBy(s), p);
  }

  lemma {:induction false} PendingIsOpenSum(l: State, w: Account)
    requires BalancesAreSums(l) && w in l.accounts
    ensures l.accounts[w].debitsPending == Sum(Open(l), Weight(DebitsPending, w))
  {
    assert Field(l.accounts[w], DebitsPending) == Sum(Counted(l, DebitsPending), Weight(DebitsPending, w));
  }

  lemma {:induction false} ReservedIsSumOfTracked(s: Sys)
    requires Inv(s) && NothingLeftBehind(s)
    ensures WalletOf(s, ActiveNodes) in s.ledger.accounts
    ensures s.ledger.accounts[WalletOf(s, ActiveNodes)].debitsPending == Sum(s.wf.pendingGauge, ReservedBy(s))
  {
    WalletExists(s, ActiveNodes);
    PendingIsOpenSum(s.ledger, WalletOf(s, ActiveNodes));
    OpenSumIsTrackedSum(s);
  }

  /**
   * In every state, the open reservations are exactly the tracked ones that nothing voided and
   * those committed by flushes that did not complete, and every tracked one was made from the
   * heartbeat at its cluster's high-water mark. Where no flush that did not complete has reached
   * the ledger, open and tracked coincide, and the wallet's pending debits are their sum.
   */
  lemma {:induction false} ReservationsMatch(cfg: Config, es: seq<Event>)
    ensures var s := Exec(Init(cfg), es);
            && (forall id :: IsOpen(s.ledger, id) <==>
                (IsTracked(s, id) && id !in s.ledger.voidedBy) || LeftBehind(s, id))
            && (forall c :: c in s.wf.pendingGauge ==>
                  IsTracked(s, s.wf.pendingGauge[c])
                  && SourcedAt(s.inputs, s.wf.processed, c, s.wf.pendingGauge[c].seqNo))
            && (NothingLeftBehind(s) ==>
                  && (forall id :: IsOpen(s.ledger, id) <==> IsTracked(s, id))
                  && WalletOf(s, ActiveNodes) in s.ledger.accounts
                  && s.ledger.accounts[WalletOf(s, ActiveNodes)].debitsPending == Sum(s.wf.pendingGauge, ReservedBy(s)))
  {
    var s := Exec(Init(cfg), es);
    ExecInv(cfg, es);
    forall id ensures IsOpen(s.ledger, id) <==> (IsTracked(s, id) && id !in s.ledger.voidedBy) || LeftBehind(s, id) {
      OpenIsTrackedOrLeft(s, id);
    }
    forall c | c in s.wf.pendingGauge ensures IsTracked(s, s.wf.pendingGauge[c]) {
      TrackedByCluster(s, c);
    }
    if NothingLeftBehind(s) {
      forall id ensures IsOpen(s.ledger, id) <==> IsTracked(s, id) {
        OpenIffTracked(s, id);
      }
      ReservedIsSumOfTracked(s);
    }
  }

  // ---------------------------------------------------------------------------------------------
  // Credits
  // ---------------------------------------------------------------------------------------------

  /** The credit would reuse the ID of the first allocation. */
  predicate ClashesWithInitial(s: Sys, n: nat)
    requires n in s.credits
  {
    n == s.config.periodStart && s.credits[n].resource in s.config.initial
  }

  predicate StandsCredited(s: Sys, n: nat)
    requires n in s.credits
  {
    var t := CreditTransfer(s.config, n, s.credits[n]);
    t.id in s.ledger.transfers && s.ledger.transfers[t.id] == t
  }

  lemma {:induction false} CommittedCreditIsOwn(s: Sys, n: nat)
    requires Numbered(s) && Booked(s) && n in s.credits
    requires CreditTransfer(s.config, n, s.credits[n]).id in s.ledger.transfers
    ensures StandsCredited(s, n) <==> !ClashesWithInitial(s, n)
  {
    var t := CreditTransfer(s.config, n, s.credits[n]);
    assert Genuine(s.config, s.inputs, s.credits, s.ledger.transfers[t.id]);
  }

  /**
   * A credit that was acknowledged stands on the ledger, once and in full, exactly unless its
   * number is the period start and its resource was in the first allocation. Confirmed credits
   * were acknowledged.
   */
  lemma {:induction false} AcknowledgedIsCredited(cfg: Config, es: seq<Event>, n: nat)
    ensures var s := Exec(Init(cfg), es);
            && (CreditDone(n) in s.log ==> n in s.acked)
            && (n in s.acked ==> n in s.credits && (StandsCredited(s, n) <==> !ClashesWithInitial(s, n)))
  {
    var s := Exec(Init(cfg), es);
    ExecInv(cfg, es);
    if n in s.acked {
      assert CreditTransfer(s.config, n, s.credits[n]).id in s.ledger.transfers;
      CommittedCreditIsOwn(s, n);
    }
  }

  predicate CommittedFor(s: Sys, n: nat, r: Resource)
    requires n in s.credits
  {
    s.credits[n].resource == r && AllocationId(s.config.tenant, n, r) in s.ledger.transfers
  }

  /** The credits of a resource that reached the ledger, by number, with the first allocation. */
  function CreditEntries(s: Sys, r: Resource): map<nat, CreditRequest> {
    (s.credits - (set n | n in s.credits && !CommittedFor(s, n, r)))
    + (if r in s.config.initial then map[s.config.periodStart := CreditRequest(r, s.config.initial[r])] else map[])
  }

  function EntryAmount(): (nat, CreditRequest) -> int {
    (n: nat, c: CreditRequest) => c.amount
  }

  ghost function EntryKeys(s: Sys, r: Resource): map<nat, TransferId> {
    MapOf(CreditEntries(s, r).Keys, (n: nat) => AllocationId(s.config.tenant, n, r))
  }

  lemma {:induction false} EntryCases(s: Sys, r: Resource, n: nat)
    requires n in CreditEntries(s, r)
    ensures if n == s.config.periodStart && r in s.config.initial
            then CreditEntries(s, r)[n] == CreditRequest(r, s.config.initial[r])
            else n in s.credits && CommittedFor(s, n, r) && CreditEntries(s, r)[n] == s.credits[n]
  {
  }

  lemma {:induction false} EntryOnLedger(s: Sys, r: Resource, n: nat)
    requires Numbered(s) && Booked(s) && n in CreditEntries(s, r)
    ensures var id := AllocationId(s.config.tenant, n, r);
            id in s.ledger.transfers
            && Weight(CreditsPosted, WalletOf(s, r))(id, s.ledger.transfers[id]) == CreditEntries(s, r)[n].amount
  {
    EntryCases(s, r, n);
    if !(n == s.config.periodStart && r in s.config.initial) {
      CommittedCreditIsOwn(s, n);
    }
  }

  lemma {:induction false} LedgerEntryKnown(s: Sys, r: Resource, id: TransferId)
    requires Booked(s) && id in s.ledger.transfers
    ensures id in EntryKeys(s, r).Values || Weight(CreditsPosted, WalletOf(s, r))(id, s.ledger.transfers[id]) == 0
  {
    var t := s.ledger.transfers[id];
    assert Genuine(s.config, s.inputs, s.credits, t);
    if id.AllocationId? && id.ledger == r {
      assert id == AllocationId(s.config.tenant, id.seqNo, r);
      assert id.seqNo in CreditEntries(s, r);
      assert EntryKeys(s, r)[id.seqNo] == id;
    }
  }

  /**
   * In every state, what a wallet was credited is its first allocation plus each committed
   * credit, once. A credit whose ID is that of the first allocation adds nothing.
   */
  lemma {:induction false} CreditedIsSumOfCommitted(cfg: Config, es: seq<Event>, r: Resource)
    ensures var s := Exec(Init(cfg), es);
            && WalletOf(s, r) in s.ledger.accounts
            && s.ledger.accounts[WalletOf(s, r)].creditsPosted == Sum(CreditEntries(s, r), EntryAmount())
  {
    var s := Exec(Init(cfg), es);
    ExecInv(cfg, es);
    WalletExists(s, r);
    var l, w := s.ledger, WalletOf(s, r);
    var entries, keys := CreditEntries(s, r), EntryKeys(s, r);
    forall n | n in entries
      ensures keys[n] in l.transfers
      ensures Weight(CreditsPosted, w)(keys[n], l.transfers[keys[n]]) == EntryAmount()(n, entries[n])
    {
      EntryOnLedger(s, r, n);
    }
    forall id | id in l.transfers && id !in keys.Values ensures Weight(CreditsPosted, w)(id, l.transfers[id]) == 0 {
      LedgerEntryKnown(s, r, id);
    }
    SumRelabel(l.transfers, Weight(CreditsPosted, w), entries, EntryAmount(), keys);
    assert Field(l.accounts[w], CreditsPosted) == Sum(Counted(l, CreditsPosted), Weight(CreditsPosted, w));
  }

  // ---------------------------------------------------------------------------------------------
  // Numbers, flags and replies
  // ---------------------------------------------------------------------------------------------

  /** The number that the next flush or credit takes was never used, by either, in any earlier run. */
  lemma {:induction false} NumbersAreNeverReused(cfg: Config, es: seq<Event>)
    ensures var s := Exec(Init(cfg), es);
            && s.inputs.Keys !! s.credits.Keys
            && s.wf.flushSeqNo + 1 !in s.inputs && s.wf.flushSeqNo + 1 !in s.credits
  {
    ExecInv(cfg, es);
  }

  lemma {:induction false} GaugeIdsCarryNumber(s: Sys, n: nat, order: seq<Uuid>, t: Transfer)
    requires n in s.inputs && Shaped(s.config, n, s.inputs[n]) && KnowsClusters(s.inputs[n], order)
    requires t in GaugeRequest(s.inputs[n], order)
    ensures (t.id.GaugePendingId? || t.id.GaugeVoidId?) && t.id.seqNo == n
  {
    var input := s.inputs[n];
    var us := GaugeUpdates(input, order);
    var i := IndexInBatch(us, t);
    UpdateParts(s.config, n, input, order[i]);
  }

  /**
   * Across all flushes and credits of a tenant's life, restarts included: no gauge request
   * shares a transfer ID with another flush's, none with a credit, no two credits share one, and
   * a credit shares one with the first allocation exactly when it clashes with it.
   */
  lemma {:induction false} RequestsShareNoId(cfg: Config, es: seq<Event>, n: nat, m: nat)
    ensures var s := Exec(Init(cfg), es);
            && (n in s.inputs && m in s.inputs && n != m ==>
                  forall o, p, t, u | KnowsClusters(s.inputs[n], o) && KnowsClusters(s.inputs[m], p)
                                      && t in GaugeRequest(s.inputs[n], o) && u in GaugeRequest(s.inputs[m], p) ::
                    t.id != u.id)
            && (n in s.inputs && m in s.credits ==>
                  forall o, t | KnowsClusters(s.inputs[n], o) && t in GaugeRequest(s.inputs[n], o) ::
                    t.id != CreditTransfer(s.config, m, s.credits[m]).id)
            && (n in s.credits && m in s.credits && n != m ==>
                  CreditTransfer(s.config, n, s.credits[n]).id != CreditTransfer(s.config, m, s.credits[m]).id)
            && (n in s.credits ==> (ClashesWithInitial(s, n) <==>
                  exists r :: r in s.config.initial
                              && InitialTransfer(s.config, r).id == CreditTransfer(s.config, n, s.credits[n]).id))
  {
    var s := Exec(Init(cfg), es);
    ExecInv(cfg, es);
    forall k, o, t | k in s.inputs && KnowsClusters(s.inputs[k], o) && t in GaugeRequest(s.inputs[k], o)
      ensures (t.id.GaugePendingId? || t.id.GaugeVoidId?) && t.id.seqNo == k
    {
      GaugeIdsCarryNumber(s, k, o, t);
    }
    if n in s.credits && ClashesWithInitial(s, n) {
      var r := s.credits[n].resource;
      assert InitialTransfer(s.config, r).id == CreditTransfer(s.config, n, s.credits[n]).id;
    }
  }

  /**
   * A usage resource is flagged as exceeded exactly when its latest decisive event was a
   * rejection: the last transfer of the resource in the latest applied flush that billed it was
   * refused, and no credit for it was confirmed since, however flushes and credits interleaved.
   */
  lemma {:induction false} FlaggedIffLastRejected(cfg: Config, es: seq<Event>, r: Resource)
    requires !r.IsGauge()
    ensures var s := Exec(Init(cfg), es);
            r in s.wf.exceeded <==> Verdict(s.ledger, s.inputs, s.credits, s.log, r) == Some(true)
  {
    ExecInv(cfg, es);
  }

  /**
   * Batches hold only numbers above the high-water marks; no heartbeat key belongs to two
   * completed flushes; the acknowledgement is the highest mark.
   */
  lemma {:induction false} SequencesAreProcessedOnce(cfg: Config, es: seq<Event>)
    ensures var s := Exec(Init(cfg), es);
            && (forall hb :: hb in s.wf.batch ==> !SeenBefore(s.wf, hb))
            && (forall n, m, x, y | n in s.done && m in s.done && n in s.inputs && m in s.inputs
                                    && x in s.inputs[n].heartbeats && y in s.inputs[m].heartbeats && SameKey(x, y) ::
                  n == m)
            && AckOk(s.wf.processed, s.wf.lastAck)
            && MarksOk(s.wf.processed, s.inputs, s.done)
  {
    var s := Exec(Init(cfg), es);
    ExecInv(cfg, es);
    forall hb | hb in s.wf.batch ensures !SeenBefore(s.wf, hb) {
      assert !Seen(s.wf.processed, hb);
    }
    forall n, m, x, y | n in s.done && m in s.done && n in s.inputs && m in s.inputs
                        && x in s.inputs[n].heartbeats && y in s.inputs[m].heartbeats && SameKey(x, y)
      ensures n == m
    {
      assert Share(s.inputs[n].heartbeats, s.inputs[m].heartbeats);
    }
  }
}
