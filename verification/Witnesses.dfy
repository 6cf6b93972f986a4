/** Concrete runs: what fails without the conditions of the theorems does happen. */
module Witnesses {
  import opened Domain
  import opened TransferIds
  import opened Maps
  import opened Ledger
  import opened Transfers
  import opened Activities
  import opened Workflow
  import opened Protocol
  import opened Invariant
  import opened Preservation
  import opened Guarantees
  import opened History
  import opened Continuity
  import opened FlushOrder
  import opened Restarts
  import opened GaugeFlag
  import G = GaugeOrder

  // ---------------------------------------------------------------------------------------------
  // The first flush
  // ---------------------------------------------------------------------------------------------

  ghost function FirstInput(cfg: Config, hbs: seq<Heartbeat>): BatchInput {
    BatchInput(cfg.tenant, hbs, map[], PendingIds(cfg.tenant, 1, hbs), VoidIds(cfg.tenant, 1, hbs))
  }

  /** The state in which the first flush has just started. */
  ghost function FirstFlush(cfg: Config, hbs: seq<Heartbeat>): Sys {
    var s := Init(cfg);
    StartFlush(s.(wf := s.wf.(batch := hbs), received := hbs))
  }

  lemma {:induction false} FirstFlushStarts(cfg: Config, hbs: seq<Heartbeat>)
    requires hbs != [] && forall hb :: hb in hbs ==> hb.seqNo >= 1
    ensures Exec(Init(cfg), Signals(hbs) + [FlushStart]) == FirstFlush(cfg, hbs)
  {
    FlushOfNew(Init(cfg), hbs);
    assert [] + hbs == hbs;
  }

  /** A resource's part of a ledger that has seen nothing but allocations, with `limit` credits. */
  ghost predicate Vacant(l: State, tenant: Uuid, r: Resource, limit: nat) {
    var w := Wallet(tenant, r);
    && l.failed == {} && l.voidedBy == map[] && w in l.accounts && Sink(r) in l.accounts
    && l.accounts[w].debitsPending == 0 && l.accounts[w].debitsPosted == 0 && l.accounts[w].creditsPosted == limit
    && forall id :: id in l.transfers ==> id.AllocationId?
  }

  function Allotted(cfg: Config, r: Resource): nat {
    if r in cfg.initial then cfg.initial[r] else 0
  }

  lemma {:induction false} FreshIsVacant(cfg: Config, r: Resource)
    ensures Vacant(Init(cfg).ledger, cfg.tenant, r, Allotted(cfg, r))
  {
    var l := Init(cfg).ledger;
    InitInv(cfg);
    EveryResource(r);
    NothingBurntAtFirst(cfg);
    forall id | id in l.transfers
      ensures id.AllocationId? && l.transfers[id].kind.Posted? && l.transfers[id].debit.Operator?
    {
      assert Genuine(cfg, map[], map[], l.transfers[id]);
    }
    assert l.voidedBy.Keys == {};
    NoDebits(l, Wallet(cfg.tenant, r), DebitsPending);
    NoDebits(l, Wallet(cfg.tenant, r), DebitsPosted);
    FreshCredits(cfg, r);
  }

  lemma {:induction false} NoDebits(l: State, w: Account, c: Column)
    requires BalancesAreSums(l) && w in l.accounts && w.Wallet? && (c == DebitsPending || c == DebitsPosted)
    requires forall id :: id in l.transfers ==> l.transfers[id].debit.Operator?
    ensures Field(l.accounts[w], c) == 0
  {
    SumZero(Counted(l, c), Weight(c, w));
  }

  lemma {:induction false} FreshEntries(s: Sys, r: Resource)
    requires s.credits == map[] && s.acked == {}
    ensures Sum(CreditEntries(s, r), EntryAmount()) == Allotted(s.config, r)
  {
    if r in s.config.initial {
      var n, c := s.config.periodStart, CreditRequest(r, s.config.initial[r]);
      assert CreditEntries(s, r) == map[n := c];
      SumOfOne(n, c, EntryAmount());
    } else {
      assert CreditEntries(s, r) == map[];
    }
  }

  lemma {:induction false} FreshCredits(cfg: Config, r: Resource)
    requires Wallet(cfg.tenant, r) in Init(cfg).ledger.accounts
    ensures Init(cfg).ledger.accounts[Wallet(cfg.tenant, r)].creditsPosted == Allotted(cfg, r)
  {
    assert Exec(Init(cfg), []) == Init(cfg);
    CreditedIsSumOfCommitted(cfg, [], r);
    FreshEntries(Init(cfg), r);
  }

  lemma {:induction false} SumOfOne<K, V>(k: K, v: V, f: (K, V) -> int)
    ensures Sum(map[k := v], f) == f(k, v)
  {
    var none: map<K, V> := map[];
    SumInsert(none, f, k, v);
    assert none[k := v] == map[k := v];
  }

  // ---------------------------------------------------------------------------------------------
  // A refused charge
  // ---------------------------------------------------------------------------------------------

  /** A heartbeat that bills one unit of CPU time. */
  function OneCpu(c: Uuid): Heartbeat {
    Heartbeat(c, 1, 1, 0, 0, 0)
  }

  lemma {:induction false} OneCharge(tenant: Uuid, c: Uuid)
    ensures UsageOf(tenant, OneCpu(c), |AllResources|) == [UsageTransfer(tenant, OneCpu(c), CpuHours)]
  {
    assert UsageOf(tenant, OneCpu(c), 0) == [];
    assert UsageOf(tenant, OneCpu(c), 1) == [UsageTransfer(tenant, OneCpu(c), CpuHours)];
    assert UsageOf(tenant, OneCpu(c), 2) == UsageOf(tenant, OneCpu(c), 1);
    assert UsageOf(tenant, OneCpu(c), 3) == UsageOf(tenant, OneCpu(c), 2);
  }

  lemma {:induction false} RefusedWithoutCredits(l: State, tenant: Uuid, c: Uuid)
    requires Vacant(l, tenant, CpuHours, 0)
    ensures var t := UsageTransfer(tenant, OneCpu(c), CpuHours);
            t.id !in l.transfers && Apply(l, t) == Step(Burn(l, t), ExceedsCredits)
  {
  }

  lemma {:induction false} OneChargeBurns(l: State, tenant: Uuid, c: Uuid)
    requires Vacant(l, tenant, CpuHours, 0)
    ensures UsageId(c, 1, CpuHours) in Run(l, UsageBatch(tenant, [OneCpu(c)])).failed
  {
    var t := UsageTransfer(tenant, OneCpu(c), CpuHours);
    OneCharge(tenant, c);
    RefusedWithoutCredits(l, tenant, c);
    assert [OneCpu(c)][..0] == [];
    assert UsageBatch(tenant, [OneCpu(c)]) == [t];
    assert [t][..0] == [];
    assert Run(l, [t]) == Apply(l, t).state;
  }

  function LostRefusal(c: Uuid): seq<Event> {
    Signals([OneCpu(c)]) + [FlushStart] + [DeliverUsage(1)] + [FlushGiveUp]
  }

  lemma {:induction false} UsageThenGivenUp(s: Sys)
    requires s.flushing == Some(1) && 1 in s.inputs
    ensures var s' := Next(Next(s, DeliverUsage(1)), FlushGiveUp);
            && s'.flushing.None? && s'.wf.batch == s.wf.batch && s'.done == s.done
            && s'.ledger == Run(s.ledger, UsageRequest(s.inputs[1]))
  {
  }

  lemma {:induction false} LostRefusalEnds(cfg: Config, hbs: seq<Heartbeat>)
    requires hbs != [] && forall hb :: hb in hbs ==> hb.seqNo >= 1
    ensures var s := Exec(Init(cfg), Signals(hbs) + [FlushStart] + [DeliverUsage(1)] + [FlushGiveUp]);
            && s.flushing.None? && s.wf.batch == hbs && s.done == {}
            && s.ledger == Run(Init(cfg).ledger, UsageBatch(cfg.tenant, hbs))
  {
    var start := Signals(hbs) + [FlushStart];
    FirstFlushStarts(cfg, hbs);
    ExecSnoc(Init(cfg), start, DeliverUsage(1));
    ExecSnoc(Init(cfg), start + [DeliverUsage(1)], FlushGiveUp);
    UsageThenGivenUp(FirstFlush(cfg, hbs));
  }

  /**
   * Without CPU credits: one billed heartbeat whose refusal gets lost stays in the batch for good,
   * and no flush ever completes again, short of a restart.
   */
  lemma {:induction false} LostRefusalBlocksForever(cfg: Config, c: Uuid, es: seq<Event>)
    requires CpuHours !in cfg.initial && ContinueAsNew !in es
    ensures var s := Exec(Exec(Init(cfg), LostRefusal(c)), es);
            OneCpu(c) in s.wf.batch && s.done == {}
  {
    LostRefusalEnds(cfg, [OneCpu(c)]);
    FreshIsVacant(cfg, CpuHours);
    OneChargeBurns(Init(cfg).ledger, cfg.tenant, c);
    RefusedThenLostNeverCompletes(cfg, LostRefusal(c), OneCpu(c), CpuHours, es);
  }

  lemma {:induction false} TwiceCharged(l: State, tenant: Uuid, c: Uuid)
    requires Vacant(l, tenant, CpuHours, 0)
    ensures !AllClassifiable(Outcomes(l, UsageBatch(tenant, [OneCpu(c), OneCpu(c)])))
  {
    var hbs, t := [OneCpu(c), OneCpu(c)], UsageTransfer(tenant, OneCpu(c), CpuHours);
    OneCharge(tenant, c);
    RefusedWithoutCredits(l, tenant, c);
    assert hbs[..1] == [OneCpu(c)] && [OneCpu(c)][..0] == [];
    assert UsageBatch(tenant, [OneCpu(c)]) == [t];
    assert UsageBatch(tenant, hbs) == [t, t];
    TwiceRefused(l, t);
  }

  lemma {:induction false} UsageUnanswered(s: Sys)
    requires s.flushing == Some(1) && 1 in s.inputs && !AllClassifiable(Outcomes(s.ledger, UsageRequest(s.inputs[1])))
    ensures Next(s, DeliverUsage(1)).usageReplies == s.usageReplies && Next(s, DeliverUsage(1)).flushing == Some(1)
  {
  }

  /** A heartbeat that is in the batch twice, and refused, fails even the first delivery: no reply needs to be lost. */
  lemma {:induction false} RefusedTwiceInOneBatch(cfg: Config, c: Uuid)
    requires CpuHours !in cfg.initial
    ensures var s := Exec(Init(cfg), Signals([OneCpu(c), OneCpu(c)]) + [FlushStart] + [DeliverUsage(1)]);
            s.flushing == Some(1) && s.usageReplies == {}
  {
    var hbs := [OneCpu(c), OneCpu(c)];
    FirstFlushStarts(cfg, hbs);
    ExecSnoc(Init(cfg), Signals(hbs) + [FlushStart], DeliverUsage(1));
    FreshIsVacant(cfg, CpuHours);
    TwiceCharged(Init(cfg).ledger, cfg.tenant, c);
    UsageUnanswered(FirstFlush(cfg, hbs));
  }

  lemma {:induction false} TwiceRefused(l: State, t: Transfer)
    requires Apply(l, t) == Step(Burn(l, t), ExceedsCredits) && t.id !in l.transfers
    ensures !AllClassifiable(Outcomes(l, [t, t]))
  {
    assert [t, t][..1] == [t] && [t][..0] == [];
    assert Run(l, [t]) == Burn(l, t);
    assert Outcomes(l, [t, t])[1] == Apply(Burn(l, t), t).outcome == IdAlreadyFailed;
  }

  // ---------------------------------------------------------------------------------------------
  // A credit that is acknowledged and adds nothing
  // ---------------------------------------------------------------------------------------------

  function ClashingCredit(r: Resource, amount: int64): seq<Event> {
    [] + [CreditStart(r, amount)] + [DeliverCredit(1)]
  }

  lemma {:induction false} ClashingCreditExists(cfg: Config, r: Resource, k: nat)
    requires cfg.periodStart == 1 && r in cfg.initial && k != cfg.initial[r]
    ensures var t, l := CreditTransfer(cfg, 1, CreditRequest(r, k)), Init(cfg).ledger;
            Apply(l, t) == Step(l, ExistsWithDifferentAmount) && Run(l, [t]) == l
  {
    InitialCommitted(cfg, r);
    var t, l := CreditTransfer(cfg, 1, CreditRequest(r, k)), Init(cfg).ledger;
    assert t.id == InitialTransfer(cfg, r).id;
    assert [t][..0] == [];
  }

  lemma {:induction false} FirstCreditRuns(s: Sys, r: Resource, amount: int64)
    requires amount > 0 && s.wf.flushSeqNo == 0
    ensures Exec(s, ClashingCredit(r, amount)) == SendCredit(StartCredit(s, r, amount), 1)
  {
    ExecSnoc(s, [], CreditStart(r, amount));
    ExecSnoc(s, [] + [CreditStart(r, amount)], DeliverCredit(1));
  }

  /**
   * With one as period start: the first credit for a resource of the first allocation, of any
   * other size, is acknowledged and leaves the ledger as it was.
   */
  lemma {:induction false} ClashingCreditAddsNothing(cfg: Config, r: Resource, amount: int64)
    requires cfg.periodStart == 1 && r in cfg.initial && amount > 0 && amount != cfg.initial[r]
    ensures var s := Exec(Init(cfg), ClashingCredit(r, amount));
            && 1 in s.acked && 1 in s.credits && ClashesWithInitial(s, 1) && !StandsCredited(s, 1)
            && s.ledger == Init(cfg).ledger
  {
    ClashingCreditExists(cfg, r, ToUint64(amount));
    FirstCreditRuns(Init(cfg), r, amount);
    AcknowledgedIsCredited(cfg, ClashingCredit(r, amount), 1);
  }

  // ---------------------------------------------------------------------------------------------
  // Two clusters
  // ---------------------------------------------------------------------------------------------

  /** A heartbeat that reports nodes and bills nothing. */
  function Nodes(c: Uuid, q: nat, k: int64): Heartbeat {
    Heartbeat(c, q, 0, 0, k, 0)
  }

  function Reserve(tenant: Uuid, c: Uuid, k: nat): Transfer {
    Transfer(Pid(tenant, 1, c), Wallet(tenant, ActiveNodes), Sink(ActiveNodes), k, Pending, c, 0)
  }

  lemma {:induction false} NodesBillNothing(tenant: Uuid, hbs: seq<Heartbeat>)
    requires forall hb :: hb in hbs ==> hb.cpuMilliseconds == 0 && hb.memoryMBSeconds == 0
    ensures UsageBatch(tenant, hbs) == []
  {
    if UsageBatch(tenant, hbs) != [] {
      UsageBatchMembers(tenant, hbs, UsageBatch(tenant, hbs)[0]);
    }
  }

  lemma {:induction false} FirstUsageIsEmpty(cfg: Config, hbs: seq<Heartbeat>)
    requires forall hb :: hb in hbs ==> hb.cpuMilliseconds == 0 && hb.memoryMBSeconds == 0
    ensures Next(FirstFlush(cfg, hbs), DeliverUsage(1)) == FirstFlush(cfg, hbs).(usageReplies := {UsageReply(1, map[])})
  {
    NodesBillNothing(cfg.tenant, hbs);
    var s := FirstFlush(cfg, hbs);
    assert UsageRequest(s.inputs[1]) == [];
    assert Outcomes(s.ledger, []) == [] && PerResource([], []) == map[];
  }

  /** The state when the first flush's gauge request is about to be sent. */
  ghost function BeforeGauge(cfg: Config, hbs: seq<Heartbeat>): Sys {
    FirstFlush(cfg, hbs).(usageReplies := {UsageReply(1, map[])})
  }

  function UntilGauge(hbs: seq<Heartbeat>): seq<Event> {
    Signals(hbs) + [FlushStart] + [DeliverUsage(1)]
  }

  lemma {:induction false} ReachBeforeGauge(cfg: Config, hbs: seq<Heartbeat>)
    requires hbs != [] && forall hb :: hb in hbs ==> hb.seqNo >= 1 && hb.cpuMilliseconds == 0 && hb.memoryMBSeconds == 0
    ensures Exec(Init(cfg), UntilGauge(hbs)) == BeforeGauge(cfg, hbs)
  {
    FirstFlushStarts(cfg, hbs);
    FirstUsageIsEmpty(cfg, hbs);
    ExecSnoc(Init(cfg), Signals(hbs) + [FlushStart], DeliverUsage(1));
  }

  lemma {:induction false} LatestOfTwo(a: Heartbeat, b: Heartbeat)
    requires a.cluster != b.cluster
    ensures Latest([a, b]) == map[a.cluster := a, b.cluster := b]
  {
    assert [a, b][..1] == [a];
    LatestOfOne(a);
  }

  lemma {:induction false} UpdateOfFirst(cfg: Config, hbs: seq<Heartbeat>, c: Uuid, k: int64)
    requires k > 0 && c in Latest(hbs) && Latest(hbs)[c] == Nodes(c, 1, k)
    ensures var input := FirstInput(cfg, hbs);
            && c in input.newPendingIds && c in input.voidIds
            && UpdateFor(input, c).oldId.None? && UpdateFor(input, c).newAmount == k
            && ReserveTransfer(UpdateFor(input, c)) == Reserve(cfg.tenant, c, k)
  {
    LatestIsHighest(hbs);
    assert Nodes(c, 1, k) in hbs;
  }

  lemma {:induction false} BatchOfReservations(u: GaugeUpdate, v: GaugeUpdate)
    requires u.oldId.None? && u.newAmount > 0 && v.oldId.None? && v.newAmount > 0
    ensures GaugeBatch([u]) == [ReserveTransfer(u)]
    ensures GaugeBatch([u, v]) == [ReserveTransfer(u), ReserveTransfer(v)]
  {
    assert [u][..0] == [] && [u, v][..1] == [u];
    assert GaugeBatch([]) == [];
  }

  lemma {:induction false} FirstGaugeOfOne(cfg: Config, a: Uuid, x: int64)
    requires x > 0
    ensures var input := FirstInput(cfg, [Nodes(a, 1, x)]);
            && KnowsClusters(input, [a]) && IsOrder([a], Latest(input.heartbeats).Keys)
            && GaugeRequest(input, [a]) == [Reserve(cfg.tenant, a, x)]
  {
    var input := FirstInput(cfg, [Nodes(a, 1, x)]);
    LatestOfOne(Nodes(a, 1, x));
    UpdateOfFirst(cfg, [Nodes(a, 1, x)], a, x);
    assert GaugeUpdates(input, [a]) == [UpdateFor(input, a)];
    BatchOfReservations(UpdateFor(input, a), UpdateFor(input, a));
  }

  /** The gauge request of a first flush with two clusters, in a given order. */
  lemma {:induction false} FirstGaugeOfTwo(cfg: Config, hbs: seq<Heartbeat>, a: Uuid, x: int64, b: Uuid, y: int64)
    requires a != b && x > 0 && y > 0 && Latest(hbs) == map[a := Nodes(a, 1, x), b := Nodes(b, 1, y)]
    ensures var input := FirstInput(cfg, hbs);
            && KnowsClusters(input, [a, b]) && IsOrder([a, b], Latest(hbs).Keys)
            && GaugeUpdates(input, [a, b]) == [UpdateFor(input, a), UpdateFor(input, b)]
            && GaugeRequest(input, [a, b]) == [Reserve(cfg.tenant, a, x), Reserve(cfg.tenant, b, y)]
  {
    var input := FirstInput(cfg, hbs);
    UpdateOfFirst(cfg, hbs, a, x);
    UpdateOfFirst(cfg, hbs, b, y);
    assert Latest(hbs).Keys == {a, b};
    assert GaugeUpdates(input, [a, b]) == [UpdateFor(input, a), UpdateFor(input, b)];
    BatchOfReservations(UpdateFor(input, a), UpdateFor(input, b));
  }

  function Fit(limit: int, amount: nat): Outcome {
    if amount <= limit then Ok else ExceedsCredits
  }

  lemma {:induction false} FirstReservation(l: State, tenant: Uuid, limit: nat, a: Uuid, x: nat)
    requires Vacant(l, tenant, ActiveNodes, limit)
    ensures var t := Reserve(tenant, a, x);
            Apply(l, t) == if x <= limit then Step(Commit(l, t), Ok) else Step(Burn(l, t), ExceedsCredits)
  {
  }

  /** Two reservations, one after the other: each is accepted when it fits what is left. */
  lemma {:induction false} TwoReservations(l: State, tenant: Uuid, limit: nat, a: Uuid, x: nat, b: Uuid, y: nat)
    requires Vacant(l, tenant, ActiveNodes, limit) && a != b
    ensures var ts := [Reserve(tenant, a, x), Reserve(tenant, b, y)];
            Outcomes(l, ts) == [Fit(limit, x), Fit(limit - (if x <= limit then x else 0), y)]
  {
    var t, u := Reserve(tenant, a, x), Reserve(tenant, b, y);
    FirstReservation(l, tenant, limit, a, x);
    assert [t, u][..1] == [t] && [t][..0] == [];
    assert Run(l, [t]) == Apply(l, t).state;
    assert Outcomes(l, [t]) == [Fit(limit, x)];
    assert Apply(Run(l, [t]), u).outcome == Fit(limit - (if x <= limit then x else 0), y);
  }

  // ---------------------------------------------------------------------------------------------
  // A reservation that is left behind
  // ---------------------------------------------------------------------------------------------

  /** The flush of one heartbeat reaches the ledger, but its result never gets back. */
  function LostReply(c: Uuid): seq<Event> {
    UntilGauge([Nodes(c, 1, 1)]) + [DeliverGauge(UsageReply(1, map[]), [c])] + [FlushGiveUp]
  }

  /** The gauge request is sent: the ledger runs it, and the workflow does not notice. */
  lemma {:induction false} GaugeIsSent(cfg: Config, hbs: seq<Heartbeat>, o: seq<Uuid>)
    requires KnowsClusters(FirstInput(cfg, hbs), o) && IsOrder(o, Latest(hbs).Keys)
    ensures var s, e := BeforeGauge(cfg, hbs), DeliverGauge(UsageReply(1, map[]), o);
            Next(s, e) == SendGauge(s, UsageReply(1, map[]), o)
  {
    EnabledGaugeIsSent(BeforeGauge(cfg, hbs), UsageReply(1, map[]), o);
  }

  lemma {:induction false} OneReserved(l: State, tenant: Uuid, limit: nat, c: Uuid)
    requires Vacant(l, tenant, ActiveNodes, limit) && limit >= 1
    ensures Pid(tenant, 1, c) in Run(l, [Reserve(tenant, c, 1)]).transfers
  {
    var t := Reserve(tenant, c, 1);
    FirstReservation(l, tenant, limit, c, 1);
    assert [t][..0] == [];
    assert Run(l, [t]) == Commit(l, t);
  }

  lemma {:induction false} LostReplyReserves(cfg: Config, c: Uuid, s: Sys)
    requires ActiveNodes in cfg.initial && cfg.initial[ActiveNodes] >= 1
    requires s == Next(BeforeGauge(cfg, [Nodes(c, 1, 1)]), DeliverGauge(UsageReply(1, map[]), [c]))
    ensures s.flushing == Some(1) && 1 in s.inputs && s.done == {} && Pid(cfg.tenant, 1, c) in s.ledger.transfers
  {
    FirstGaugeOfOne(cfg, c, 1);
    GaugeIsSent(cfg, [Nodes(c, 1, 1)], [c]);
    FreshIsVacant(cfg, ActiveNodes);
    OneReserved(Init(cfg).ledger, cfg.tenant, Allotted(cfg, ActiveNodes), c);
  }

  /**
   * Wherever the first allocation has room for one node: one heartbeat and one lost reply leave
   * a reservation on the ledger that the workflow does not know, and that nothing releases.
   */
  lemma {:induction false} LostReplyLeavesReservation(cfg: Config, c: Uuid, es: seq<Event>)
    requires ActiveNodes in cfg.initial && cfg.initial[ActiveNodes] >= 1
    ensures var s := Exec(Exec(Init(cfg), LostReply(c)), es);
            IsOpen(s.ledger, Pid(cfg.tenant, 1, c)) && !IsTracked(s, Pid(cfg.tenant, 1, c))
  {
    var before, gauge := UntilGauge([Nodes(c, 1, 1)]), DeliverGauge(UsageReply(1, map[]), [c]);
    ReachBeforeGauge(cfg, [Nodes(c, 1, 1)]);
    LostReplyReserves(cfg, c, Next(BeforeGauge(cfg, [Nodes(c, 1, 1)]), gauge));
    ExecSnoc(Init(cfg), before, gauge);
    ExecSnoc(Init(cfg), before + [gauge], FlushGiveUp);
    LeftBehindForever(cfg, LostReply(c), Pid(cfg.tenant, 1, c), es);
  }

  // ---------------------------------------------------------------------------------------------
  // The order of clusters decides the gauge's flag
  // ---------------------------------------------------------------------------------------------

  ghost function FirstReport(cfg: Config, hbs: seq<Heartbeat>, o: seq<Uuid>): BatchResult
    requires KnowsClusters(FirstInput(cfg, hbs), o)
  {
    var input := FirstInput(cfg, hbs);
    Report(input, o, map[], Outcomes(Init(cfg).ledger, GaugeRequest(input, o)))
  }

  /** The first flush, completed with its gauge request sent in a given order. */
  ghost function UntilComplete(cfg: Config, hbs: seq<Heartbeat>, o: seq<Uuid>): seq<Event>
    requires KnowsClusters(FirstInput(cfg, hbs), o)
  {
    UntilGauge(hbs) + [DeliverGauge(UsageReply(1, map[]), o)] + [FlushComplete(FirstReport(cfg, hbs, o))]
  }

  lemma {:induction false} FirstFlushCompletes(cfg: Config, hbs: seq<Heartbeat>, o: seq<Uuid>)
    requires hbs != [] && forall hb :: hb in hbs ==> hb.seqNo >= 1 && hb.cpuMilliseconds == 0 && hb.memoryMBSeconds == 0
    requires KnowsClusters(FirstInput(cfg, hbs), o) && IsOrder(o, Latest(hbs).Keys)
    requires AllTolerated(GaugeRequest(FirstInput(cfg, hbs), o),
                          Outcomes(Init(cfg).ledger, GaugeRequest(FirstInput(cfg, hbs), o)))
    ensures Exec(Init(cfg), UntilComplete(cfg, hbs, o)) ==
            CompleteFlush(SendGauge(BeforeGauge(cfg, hbs), UsageReply(1, map[]), o), FirstReport(cfg, hbs, o))
  {
    var e, res := DeliverGauge(UsageReply(1, map[]), o), FirstReport(cfg, hbs, o);
    ReachBeforeGauge(cfg, hbs);
    GaugeIsSent(cfg, hbs, o);
    ExecSnoc(Init(cfg), UntilGauge(hbs), e);
    ExecSnoc(Init(cfg), UntilGauge(hbs) + [e], FlushComplete(res));
    ReportedFlushCompletes(BeforeGauge(cfg, hbs), UsageReply(1, map[]), o);
  }

  /** Two clusters without reservations so far, both asking for one. */
  ghost predicate PlainPair(input: BatchInput, a: Uuid, b: Uuid) {
    && a != b && KnowsClusters(input, [a, b])
    && var us := GaugeUpdates(input, [a, b]);
       && us[0].cluster == a && us[0].oldId.None? && us[0].newAmount > 0
       && us[1].cluster == b && us[1].oldId.None? && us[1].newAmount > 0
  }

  lemma {:induction false} PairIndices(input: BatchInput, a: Uuid, b: Uuid)
    requires PlainPair(input, a, b)
    ensures var us := GaugeUpdates(input, [a, b]);
            |GaugeRequest(input, [a, b])| == 2 && ReserveIndex(us, 0) == 0 && ReserveIndex(us, 1) == 1
  {
    var us := GaugeUpdates(input, [a, b]);
    assert us == [us[0], us[1]] && us[..1] == [us[0]] && us[..0] == [];
    BatchOfReservations(us[0], us[1]);
  }

  lemma {:induction false} FirstIsPlain(cfg: Config, hbs: seq<Heartbeat>, a: Uuid, x: int64, b: Uuid, y: int64)
    requires a != b && x > 0 && y > 0 && Latest(hbs) == map[a := Nodes(a, 1, x), b := Nodes(b, 1, y)]
    ensures PlainPair(FirstInput(cfg, hbs), a, b)
  {
    UpdateOfFirst(cfg, hbs, a, x);
    UpdateOfFirst(cfg, hbs, b, y);
    FirstGaugeOfTwo(cfg, hbs, a, x, b, y);
  }

  lemma {:induction false} LastEntryOfTwo(input: BatchInput, a: Uuid, b: Uuid, os: seq<Outcome>)
    requires PlainPair(input, a, b) && |GaugeRequest(input, [a, b])| == |os|
    ensures |os| == 2
    ensures ActiveNodes in ExceededAfter({}, Report(input, [a, b], map[], os).perResource) <==> os[1].ExceedsCredits?
  {
    PairIndices(input, a, b);
    ReportedGaugeEntry(input, [a, b], map[], os);
  }

  lemma {:induction false} FirstOutcomes(cfg: Config, hbs: seq<Heartbeat>, a: Uuid, x: int64, b: Uuid, y: int64)
    requires a != b && x > 0 && y > 0 && Latest(hbs) == map[a := Nodes(a, 1, x), b := Nodes(b, 1, y)]
    ensures PlainPair(FirstInput(cfg, hbs), a, b) && IsOrder([a, b], Latest(hbs).Keys)
    ensures var gs, limit := GaugeRequest(FirstInput(cfg, hbs), [a, b]), Allotted(cfg, ActiveNodes);
            var os := Outcomes(Init(cfg).ledger, gs);
            |gs| == 2 && AllTolerated(gs, os) && (os[1].ExceedsCredits? <==> y > limit - (if x <= limit then x else 0))
  {
    FirstIsPlain(cfg, hbs, a, x, b, y);
    FirstGaugeOfTwo(cfg, hbs, a, x, b, y);
    FreshIsVacant(cfg, ActiveNodes);
    TwoReservations(Init(cfg).ledger, cfg.tenant, Allotted(cfg, ActiveNodes), a, x, b, y);
  }

  lemma {:induction false} FlagsAfterFirst(cfg: Config, hbs: seq<Heartbeat>, o: seq<Uuid>)
    requires hbs != [] && forall hb :: hb in hbs ==> hb.seqNo >= 1 && hb.cpuMilliseconds == 0 && hb.memoryMBSeconds == 0
    requires KnowsClusters(FirstInput(cfg, hbs), o) && IsOrder(o, Latest(hbs).Keys)
    requires AllTolerated(GaugeRequest(FirstInput(cfg, hbs), o),
                          Outcomes(Init(cfg).ledger, GaugeRequest(FirstInput(cfg, hbs), o)))
    ensures Exec(Init(cfg), UntilComplete(cfg, hbs, o)).wf.exceeded ==
            ExceededAfter({}, FirstReport(cfg, hbs, o).perResource)
  {
    FirstFlushCompletes(cfg, hbs, o);
  }

  /** The gauge is flagged exactly when the last cluster of the order is refused. */
  lemma {:induction false} LastOfTwoFlags(cfg: Config, hbs: seq<Heartbeat>, a: Uuid, x: int64, b: Uuid, y: int64)
    requires a != b && x > 0 && y > 0 && Latest(hbs) == map[a := Nodes(a, 1, x), b := Nodes(b, 1, y)]
    requires hbs != [] && forall hb :: hb in hbs ==> hb.seqNo >= 1 && hb.cpuMilliseconds == 0 && hb.memoryMBSeconds == 0
    ensures KnowsClusters(FirstInput(cfg, hbs), [a, b])
    ensures var limit := Allotted(cfg, ActiveNodes);
            ActiveNodes in Exec(Init(cfg), UntilComplete(cfg, hbs, [a, b])).wf.exceeded <==>
            y > limit - (if x <= limit then x else 0)
  {
    FirstOutcomes(cfg, hbs, a, x, b, y);
    FlagsAfterFirst(cfg, hbs, [a, b]);
    var input := FirstInput(cfg, hbs);
    LastEntryOfTwo(input, a, b, Outcomes(Init(cfg).ledger, GaugeRequest(input, [a, b])));
  }

  /**
   * With four credits, one cluster asking for eight nodes and one for two: the flush refuses the
   * first whatever the order, but flags the gauge only if the map iteration ends with it.
   */
  lemma {:induction false} OrderDecidesFlag(cfg: Config, a: Uuid, b: Uuid)
    requires a != b && ActiveNodes in cfg.initial && cfg.initial[ActiveNodes] == 4
    ensures var hbs := [Nodes(a, 1, 8), Nodes(b, 1, 2)];
            && KnowsClusters(FirstInput(cfg, hbs), [a, b]) && KnowsClusters(FirstInput(cfg, hbs), [b, a])
            && ActiveNodes !in Exec(Init(cfg), UntilComplete(cfg, hbs, [a, b])).wf.exceeded
            && ActiveNodes in Exec(Init(cfg), UntilComplete(cfg, hbs, [b, a])).wf.exceeded
  {
    var hbs := [Nodes(a, 1, 8), Nodes(b, 1, 2)];
    LatestOfTwo(hbs[0], hbs[1]);
    assert map[a := hbs[0], b := hbs[1]] == map[b := hbs[1], a := hbs[0]];
    LastOfTwoFlags(cfg, hbs, a, 8, b, 2);
    LastOfTwoFlags(cfg, hbs, b, 2, a, 8);
  }

  // ---------------------------------------------------------------------------------------------
  // The new total fits, and yet some order is refused
  // ---------------------------------------------------------------------------------------------

  function Five(a: Uuid, b: Uuid): seq<Heartbeat> {
    [Nodes(a, 1, 5), Nodes(b, 1, 5)]
  }

  /** What the two clusters report next. */
  function Later(a: Uuid, x: int64, b: Uuid, y: int64): seq<Heartbeat> {
    [Nodes(a, 2, x), Nodes(b, 2, y)]
  }

  /** Ten credits, all of them reserved, five for each of two clusters. */
  ghost predicate FullWallet(l: State, tenant: Uuid, a: Uuid, b: Uuid) {
    var w := Wallet(tenant, ActiveNodes);
    && l.failed == {} && l.voidedBy == map[] && w in l.accounts
    && l.accounts[w].debitsPending == 10 && l.accounts[w].debitsPosted == 0 && l.accounts[w].creditsPosted == 10
    && Pid(tenant, 1, a) in l.transfers && l.transfers[Pid(tenant, 1, a)].amount == 5
    && Pid(tenant, 1, b) in l.transfers && l.transfers[Pid(tenant, 1, b)].amount == 5
    && (forall id :: id in l.transfers && (id.GaugePendingId? || id.GaugeVoidId?) ==> id.seqNo == 1)
  }

  /** The reservations are tracked, and nothing is waiting. */
  ghost predicate FirstIsDone(cfg: Config, a: Uuid, b: Uuid, s: Sys) {
    && s.config == cfg && s.flushing.None?
    && s.wf.tenant == cfg.tenant && s.wf.flushSeqNo == 1 && s.wf.batch == [] && s.wf.processed == map[a := 1, b := 1]
    && s.wf.pendingGauge == map[a := Pid(cfg.tenant, 1, a), b := Pid(cfg.tenant, 1, b)]
  }

  lemma {:induction false} BothReserved(l: State, tenant: Uuid, a: Uuid, b: Uuid)
    requires Vacant(l, tenant, ActiveNodes, 10) && a != b
    ensures var ts := [Reserve(tenant, a, 5), Reserve(tenant, b, 5)];
            Outcomes(l, ts) == [Ok, Ok] && FullWallet(Run(l, ts), tenant, a, b)
  {
    var t, u := Reserve(tenant, a, 5), Reserve(tenant, b, 5);
    TwoReservations(l, tenant, 10, a, 5, b, 5);
    FirstReservation(l, tenant, 10, a, 5);
    assert [t, u][..1] == [t] && [t][..0] == [];
    assert Run(l, [t]) == Commit(l, t);
    assert Run(l, [t, u]) == Commit(Commit(l, t), u);
  }

  lemma {:induction false} GaugeOfTwo(input: BatchInput, a: Uuid, b: Uuid)
    requires PlainPair(input, a, b)
    ensures |GaugeRequest(input, [a, b])| == 2
    ensures var us := GaugeUpdates(input, [a, b]);
            Report(input, [a, b], map[], [Ok, Ok]).gauge == map[a := Some(us[0].newId), b := Some(us[1].newId)]
  {
    var us, os := GaugeUpdates(input, [a, b]), [Ok, Ok];
    PairIndices(input, a, b);
    var gs := GaugeResults(us, os);
    assert gs[0].newPendingId == Some(us[0].newId) && gs[1].newPendingId == Some(us[1].newId);
    assert GaugeMap(us, gs, 0) == map[];
    assert GaugeMap(us, gs, 1) == map[a := Some(us[0].newId)];
  }

  lemma {:induction false} MarksOfFive(a: Uuid, b: Uuid)
    requires a != b
    ensures ProcessedAfter(map[], Five(a, b)) == map[a := 1, b := 1]
  {
    var hbs := Five(a, b);
    assert hbs[..1] == [Nodes(a, 1, 5)] && hbs[..1][..0] == [];
    assert ProcessedAfter(map[], []) == map[];
    assert ProcessedAfter(map[], hbs[..1]) == map[a := 1];
  }

  lemma {:induction false} FirstGauge(cfg: Config, a: Uuid, b: Uuid)
    requires a != b
    ensures var input := FirstInput(cfg, Five(a, b));
            && PlainPair(input, a, b) && IsOrder([a, b], Latest(Five(a, b)).Keys)
            && GaugeRequest(input, [a, b]) == [Reserve(cfg.tenant, a, 5), Reserve(cfg.tenant, b, 5)]
            && GaugeUpdates(input, [a, b])[0].newId == Pid(cfg.tenant, 1, a)
            && GaugeUpdates(input, [a, b])[1].newId == Pid(cfg.tenant, 1, b)
  {
    var hbs := Five(a, b);
    LatestOfTwo(hbs[0], hbs[1]);
    FirstIsPlain(cfg, hbs, a, 5, b, 5);
    FirstGaugeOfTwo(cfg, hbs, a, 5, b, 5);
    UpdateOfFirst(cfg, hbs, a, 5);
    UpdateOfFirst(cfg, hbs, b, 5);
  }

  lemma {:induction false} TrackedAfterFirst(input: BatchInput, a: Uuid, b: Uuid)
    requires PlainPair(input, a, b) && |GaugeRequest(input, [a, b])| == 2
    ensures var us := GaugeUpdates(input, [a, b]);
            GaugeAfter(map[], Report(input, [a, b], map[], [Ok, Ok]).gauge) == map[a := us[0].newId, b := us[1].newId]
  {
    GaugeOfTwo(input, a, b);
  }

  lemma {:induction false} FirstReserves(cfg: Config, a: Uuid, b: Uuid)
    requires a != b && ActiveNodes in cfg.initial && cfg.initial[ActiveNodes] == 10
    ensures KnowsClusters(FirstInput(cfg, Five(a, b)), [a, b])
    ensures var gs, l := GaugeRequest(FirstInput(cfg, Five(a, b)), [a, b]), Init(cfg).ledger;
            && |gs| == 2 && Outcomes(l, gs) == [Ok, Ok] && AllTolerated(gs, [Ok, Ok])
            && FullWallet(Run(l, gs), cfg.tenant, a, b)
  {
    FirstGauge(cfg, a, b);
    FreshIsVacant(cfg, ActiveNodes);
    BothReserved(Init(cfg).ledger, cfg.tenant, a, b);
  }

  lemma {:induction false} AfterFirst(cfg: Config, a: Uuid, b: Uuid)
    requires a != b && ActiveNodes in cfg.initial && cfg.initial[ActiveNodes] == 10
    ensures KnowsClusters(FirstInput(cfg, Five(a, b)), [a, b])
    ensures var s := SendGauge(BeforeGauge(cfg, Five(a, b)), UsageReply(1, map[]), [a, b]);
            FirstIsDone(cfg, a, b, CompleteFlush(s, FirstReport(cfg, Five(a, b), [a, b])))
  {
    FirstReserves(cfg, a, b);
    FirstGauge(cfg, a, b);
    TrackedAfterFirst(FirstInput(cfg, Five(a, b)), a, b);
    MarksOfFive(a, b);
  }

  lemma {:induction false} FirstFillsWallet(cfg: Config, a: Uuid, b: Uuid)
    requires a != b && ActiveNodes in cfg.initial && cfg.initial[ActiveNodes] == 10
    ensures KnowsClusters(FirstInput(cfg, Five(a, b)), [a, b])
    ensures var s := Exec(Init(cfg), UntilComplete(cfg, Five(a, b), [a, b]));
            FirstIsDone(cfg, a, b, s) && FullWallet(s.ledger, cfg.tenant, a, b)
  {
    FirstReserves(cfg, a, b);
    FirstGauge(cfg, a, b);
    FirstFlushCompletes(cfg, Five(a, b), [a, b]);
    AfterFirst(cfg, a, b);
  }

  /** The second flush of that wallet has just started. */
  ghost function UntilSecond(cfg: Config, a: Uuid, x: int64, b: Uuid, y: int64): seq<Event>
    requires KnowsClusters(FirstInput(cfg, Five(a, b)), [a, b])
  {
    UntilComplete(cfg, Five(a, b), [a, b]) + Signals(Later(a, x, b, y)) + [FlushStart]
  }

  ghost predicate SecondIsRunning(cfg: Config, a: Uuid, x: int64, b: Uuid, y: int64, s: Sys) {
    && s.config == cfg && FullWallet(s.ledger, cfg.tenant, a, b) && 2 in s.inputs
    && s.inputs[2].heartbeats == Later(a, x, b, y)
    && s.inputs[2].pendingGauge == map[a := Pid(cfg.tenant, 1, a), b := Pid(cfg.tenant, 1, b)]
  }

  lemma {:induction false} SecondFlushStarts(cfg: Config, a: Uuid, x: int64, b: Uuid, y: int64, s: Sys)
    requires a != b && FirstIsDone(cfg, a, b, s) && FullWallet(s.ledger, cfg.tenant, a, b)
    ensures SecondIsRunning(cfg, a, x, b, y, Exec(s, Signals(Later(a, x, b, y)) + [FlushStart]))
  {
    LaterIsNew(cfg, a, x, b, y, s);
    FlushOfNew(s, Later(a, x, b, y));
  }

  lemma {:induction false} LaterIsNew(cfg: Config, a: Uuid, x: int64, b: Uuid, y: int64, s: Sys)
    requires FirstIsDone(cfg, a, b, s)
    ensures forall hb :: hb in Later(a, x, b, y) ==> hb.seqNo >= 1 && !SeenBefore(s.wf, hb)
  {
  }

  lemma {:induction false} SecondIsUntouched(s: Sys, a: Uuid, b: Uuid)
    requires FullWallet(s.ledger, s.config.tenant, a, b) && 2 in s.inputs
    ensures Untouched(s, 2)
  {
  }

  lemma {:induction false} SecondIsReached(cfg: Config, a: Uuid, x: int64, b: Uuid, y: int64)
    requires a != b && ActiveNodes in cfg.initial && cfg.initial[ActiveNodes] == 10
    ensures KnowsClusters(FirstInput(cfg, Five(a, b)), [a, b])
    ensures var s := Exec(Init(cfg), UntilSecond(cfg, a, x, b, y));
            SecondIsRunning(cfg, a, x, b, y, s) && Untouched(s, 2)
  {
    FirstFillsWallet(cfg, a, b);
    var first, later := UntilComplete(cfg, Five(a, b), [a, b]), Signals(Later(a, x, b, y));
    ExecConcat(Init(cfg), first, later + [FlushStart]);
    assert first + later + [FlushStart] == first + (later + [FlushStart]);
    SecondFlushStarts(cfg, a, x, b, y, Exec(Init(cfg), first));
    SecondIsUntouched(Exec(Init(cfg), UntilSecond(cfg, a, x, b, y)), a, b);
  }

  /** The two updates of the second flush: each gives back five. */
  lemma {:induction false} SecondUpdates(l: State, tenant: Uuid, a: Uuid, x: int64, b: Uuid, y: int64,
      input: BatchInput)
    requires a != b && x > 0 && y > 0 && FullWallet(l, tenant, a, b)
    requires Complete(input) && input.heartbeats == Later(a, x, b, y)
    requires input.pendingGauge == map[a := Pid(tenant, 1, a), b := Pid(tenant, 1, b)]
    ensures Latest(input.heartbeats).Keys == {a, b}
    ensures var u, v := UpdateFor(input, a), UpdateFor(input, b);
            && u != v && Updates(input) == {u, v}
            && u.newAmount == x && G.OldAmount(l, u) == 5 && v.newAmount == y && G.OldAmount(l, v) == 5
  {
    var hbs := Later(a, x, b, y);
    LatestOfTwo(hbs[0], hbs[1]);
    assert Latest(hbs).Keys == {a, b};
  }

  /**
   * A flush of a run from provisioning on, with ten credits: one cluster grows from five nodes to
   * eight, the other shrinks to two. The new total of ten fits, but not every order is accepted.
   */
  lemma {:induction false} NewTotalIsNotEnough(cfg: Config, a: Uuid, b: Uuid)
    requires a != b && ActiveNodes in cfg.initial && cfg.initial[ActiveNodes] == 10
    ensures KnowsClusters(FirstInput(cfg, Five(a, b)), [a, b])
    ensures var s := Exec(Init(cfg), UntilSecond(cfg, a, 8, b, 2));
            && 2 in s.inputs && Untouched(s, 2) && Complete(s.inputs[2])
            && WalletOf(s, ActiveNodes) in s.ledger.accounts
            && NewTotalFits(s.ledger, s.config.tenant, Updates(s.inputs[2]))
            && !AnyIterationAccepts(s, s.inputs[2])
  {
    SecondIsReached(cfg, a, 8, b, 2);
    var es := UntilSecond(cfg, a, 8, b, 2);
    var s := Exec(Init(cfg), es);
    IterationOrderIsHarmlessIff(cfg, es, 2, [], []);
    SecondUpdates(s.ledger, cfg.tenant, a, 8, b, 2, s.inputs[2]);
    var u, v := UpdateFor(s.inputs[2], a), UpdateFor(s.inputs[2], b);
    SetSumOfTwo(u, v, G.Delta(s.ledger));
    SetSumOfTwo(u, v, G.Increase(s.ledger));
  }

  lemma {:induction false} SecondOfSixesFits(l: State, tenant: Uuid, u: GaugeUpdate, v: GaugeUpdate)
    requires Wallet(tenant, ActiveNodes) in l.accounts
    requires var w := l.accounts[Wallet(tenant, ActiveNodes)];
             w.debitsPending == 10 && w.debitsPosted == 0 && w.creditsPosted == 10
    requires u.newAmount == 6 && v.newAmount == 6 && G.OldAmount(l, u) == 5 && G.OldAmount(l, v) == 5
    ensures LastFits(l, tenant, [u, v])
  {
    assert [u, v][..1] == [u] && [u][..0] == [];
    assert Reserved(l, tenant, [u]) == 5;
  }

  lemma {:induction false} OrdersOfTwo(o: seq<Uuid>, a: Uuid, b: Uuid)
    requires a != b && IsOrder(o, {a, b})
    ensures o == [a, b] || o == [b, a]
  {
    assert a in o && b in o;
    assert o[0] in o && o[1] in o && o[|o| - 1] in o;
  }

  lemma {:induction false} SixesFit(l: State, tenant: Uuid, a: Uuid, b: Uuid, input: BatchInput, o: seq<Uuid>)
    requires a != b && FullWallet(l, tenant, a, b) && Complete(input) && input.heartbeats == Later(a, 6, b, 6)
    requires input.pendingGauge == map[a := Pid(tenant, 1, a), b := Pid(tenant, 1, b)] && IsIteration(input, o)
    ensures o != [] && LastFits(l, tenant, GaugeUpdates(input, o))
  {
    SecondUpdates(l, tenant, a, 6, b, 6, input);
    OrdersOfTwo(o, a, b);
    var u, v := UpdateFor(input, o[0]), UpdateFor(input, o[1]);
    assert GaugeUpdates(input, o) == [u, v];
    SecondOfSixesFits(l, tenant, u, v);
  }

  lemma {:induction false} SixesNeverFlag(s: Sys, a: Uuid, b: Uuid, o: seq<Uuid>)
    requires Inv(s) && a != b && SecondIsRunning(s.config, a, 6, b, 6, s) && Untouched(s, 2)
    requires Complete(s.inputs[2]) && IsIteration(s.inputs[2], o)
    requires WalletOf(s, ActiveNodes) in s.ledger.accounts
    requires !NewTotalFits(s.ledger, s.config.tenant, Updates(s.inputs[2]))
    ensures !FlagAfter(s, s.inputs[2], map[], o) && !G.AcceptsAll(s.ledger, GaugeUpdates(s.inputs[2], o))
  {
    AcceptedTotalFits(s, 2, o);
    SixesFit(s.ledger, s.config.tenant, a, b, s.inputs[2], o);
    FlagIffLastRefused(s, 2, map[], o);
  }

  /**
   * The same wallet, and both clusters grow from five nodes to six. The new total of twelve does
   * not fit, every order refuses a cluster, and none flags the gauge.
   */
  lemma {:induction false} OverfullTotalNeverFlags(cfg: Config, a: Uuid, b: Uuid, o: seq<Uuid>)
    requires a != b && ActiveNodes in cfg.initial && cfg.initial[ActiveNodes] == 10
    ensures KnowsClusters(FirstInput(cfg, Five(a, b)), [a, b])
    ensures var s := Exec(Init(cfg), UntilSecond(cfg, a, 6, b, 6));
            && 2 in s.inputs && Untouched(s, 2) && Complete(s.inputs[2])
            && WalletOf(s, ActiveNodes) in s.ledger.accounts
            && !NewTotalFits(s.ledger, s.config.tenant, Updates(s.inputs[2]))
            && (IsIteration(s.inputs[2], o) ==>
                  !G.AcceptsAll(s.ledger, GaugeUpdates(s.inputs[2], o)) && !FlagAfter(s, s.inputs[2], map[], o))
  {
    SecondIsReached(cfg, a, 6, b, 6);
    var es := UntilSecond(cfg, a, 6, b, 6);
    var s := Exec(Init(cfg), es);
    IterationOrderIsHarmlessIff(cfg, es, 2, [], []);
    SecondUpdates(s.ledger, cfg.tenant, a, 6, b, 6, s.inputs[2]);
    SetSumOfTwo(UpdateFor(s.inputs[2], a), UpdateFor(s.inputs[2], b), G.Delta(s.ledger));
    if IsIteration(s.inputs[2], o) {
      ExecInv(cfg, es);
      SixesNeverFlag(s, a, b, o);
    }
  }
}
