/** What the reports and reservations of a flush have to do with those of other flushes and attempts. */
module History {
  import opened Domain
  import opened TransferIds
  import opened Ledger
  import opened Transfers
  import opened Replies
  import opened Activities
  import opened Workflow
  import opened Protocol
  import opened Invariant
  import opened Preservation
  import opened Guarantees
  import opened Attempts

  // ---------------------------------------------------------------------------------------------
  // The first delivery of a gauge request
  // ---------------------------------------------------------------------------------------------

  predicate IsGaugeIdOf(id: TransferId, n: nat) {
    (id.GaugePendingId? || id.GaugeVoidId?) && id.seqNo == n
  }

  ghost predicate NoGaugeBurnt(l: State, n: nat) {
    forall id :: IsGaugeIdOf(id, n) ==> id !in l.failed
  }

  predicate DeliversGaugeOf(e: Event, n: nat) {
    e.DeliverGauge? && e.reply.flush == n
  }

  lemma {:induction false} OthersBurnNothing(l: State, ts: seq<Transfer>, n: nat)
    requires Valid(l) && NoGaugeBurnt(l, n) && forall t :: t in ts ==> !IsGaugeIdOf(t.id, n)
    ensures NoGaugeBurnt(Run(l, ts), n)
  {
    forall id | IsGaugeIdOf(id, n) ensures id !in Run(l, ts).failed {
      OthersKeepId(l, ts, id);
    }
  }

  lemma {:induction false} OtherGaugeBurnsNothing(s: Sys, m: nat, o: seq<Uuid>, n: nat)
    requires Numbered(s) && Valid(s.ledger) && NoGaugeBurnt(s.ledger, n) && m != n
    requires m in s.inputs && KnowsClusters(s.inputs[m], o)
    ensures NoGaugeBurnt(Run(s.ledger, GaugeRequest(s.inputs[m], o)), n)
  {
    forall t | t in GaugeRequest(s.inputs[m], o) ensures !IsGaugeIdOf(t.id, n) {
      GaugeIdsCarryNumber(s, m, o, t);
    }
    OthersBurnNothing(s.ledger, GaugeRequest(s.inputs[m], o), n);
  }

  lemma {:induction false} InitialBurnsNothing(s: Sys, n: nat)
    requires Valid(s.ledger) && NoGaugeBurnt(s.ledger, n)
    ensures NoGaugeBurnt(Run(s.ledger, InitialRequest(s.config, |AllResources|)), n)
  {
    forall t | t in InitialRequest(s.config, |AllResources|) ensures !IsGaugeIdOf(t.id, n) {
      InitialMembers(s.config, t);
    }
    OthersBurnNothing(s.ledger, InitialRequest(s.config, |AllResources|), n);
  }

  lemma {:induction false} CreditBurnsNothing(s: Sys, m: nat, n: nat)
    requires Valid(s.ledger) && NoGaugeBurnt(s.ledger, n) && m in s.credits
    ensures NoGaugeBurnt(SendCredit(s, m).ledger, n)
  {
    OthersBurnNothing(s.ledger, [CreditTransfer(s.config, m, s.credits[m])], n);
  }

  lemma {:induction false} UsageBurnsNothing(s: Sys, m: nat, n: nat)
    requires Inv(s) && NoGaugeBurnt(s.ledger, n) && m in s.inputs
    ensures NoGaugeBurnt(SendUsage(s, m).ledger, n)
  {
    UsageTransfersFit(s, m);
    OthersBurnNothing(s.ledger, UsageRequest(s.inputs[m]), n);
  }

  lemma {:induction false} OtherEventBurnsNothing(s: Sys, e: Event, n: nat)
    requires Inv(s) && NoGaugeBurnt(s.ledger, n) && !e.DeliverGauge?
    ensures NoGaugeBurnt(Next(s, e).ledger, n)
  {
    if e.DeliverUsage? && Enabled(s, e) {
      UsageBurnsNothing(s, e.flush, n);
    } else if e.DeliverCredit? && Enabled(s, e) {
      CreditBurnsNothing(s, e.credit, n);
    } else if e.DeliverInitial? {
      InitialBurnsNothing(s, n);
    }
  }

  lemma {:induction false} UnburntNext(s: Sys, e: Event, n: nat)
    requires Inv(s) && NoGaugeBurnt(s.ledger, n) && !DeliversGaugeOf(e, n)
    ensures NoGaugeBurnt(Next(s, e).ledger, n)
  {
    if !e.DeliverGauge? {
      OtherEventBurnsNothing(s, e, n);
    } else if Enabled(s, e) {
      OtherGaugeBurnsNothing(s, e.reply.flush, e.order, n);
    }
  }

  lemma {:induction false} UnburntUntilDelivered(cfg: Config, es: seq<Event>, n: nat)
    requires forall e :: e in es ==> !DeliversGaugeOf(e, n)
    ensures NoGaugeBurnt(Exec(Init(cfg), es).ledger, n)
    decreases |es|
  {
    if es == [] {
      NothingBurntAtFirst(cfg);
    } else {
      UnburntUntilDelivered(cfg, es[..|es| - 1], n);
      ExecInv(cfg, es[..|es| - 1]);
      UnburntNext(Exec(Init(cfg), es[..|es| - 1]), es[|es| - 1], n);
    }
  }

  /** The first delivery of a flush's gauge request never fails, whatever it finds on the ledger. */
  lemma {:induction false} FirstGaugeDeliveryIsTolerated(cfg: Config, es: seq<Event>, n: nat, o: seq<Uuid>)
    requires n in Exec(Init(cfg), es).inputs && KnowsClusters(Exec(Init(cfg), es).inputs[n], o)
    requires IsOrder(o, Latest(Exec(Init(cfg), es).inputs[n].heartbeats).Keys)
    requires forall e :: e in es ==> !DeliversGaugeOf(e, n)
    ensures var s := Exec(Init(cfg), es);
            var gs := GaugeRequest(s.inputs[n], o);
            AllTolerated(gs, Outcomes(s.ledger, gs))
  {
    var s := Exec(Init(cfg), es);
    ExecInv(cfg, es);
    UnburntUntilDelivered(cfg, es, n);
    forall t | t in GaugeRequest(s.inputs[n], o) ensures t.id !in s.ledger.failed {
      GaugeIdsCarryNumber(s, n, o, t);
    }
    GaugeToleratedIff(s, n, o);
  }

  // ---------------------------------------------------------------------------------------------
  // All reports of a flush
  // ---------------------------------------------------------------------------------------------

  /** Some reservation of the flush was refused. */
  ghost predicate Refused(cfg: Config, l: State, n: nat, input: BatchInput) {
    exists c :: c in Latest(input.heartbeats) && GaugeAmount(input, c) > 0 && Pid(cfg.tenant, n, c) in l.failed
  }

  /** Every cluster of the flush asked for a reservation, and every one was refused. */
  ghost predicate AllRefused(cfg: Config, l: State, n: nat, input: BatchInput) {
    forall c :: c in Latest(input.heartbeats) ==> GaugeAmount(input, c) > 0 && Pid(cfg.tenant, n, c) in l.failed
  }

  /**
   * What a report says about the gauge: accepted or refused, accepted when no reservation was
   * refused, and refused when all of them were.
   */
  ghost predicate GaugeEntryOk(cfg: Config, l: State, n: nat, input: BatchInput, per: map<Resource, TransferResult>) {
    && (ActiveNodes in per <==> Latest(input.heartbeats) != map[])
    && (ActiveNodes in per ==> per[ActiveNodes].accepted == !per[ActiveNodes].exceedsCredits)
    && (ActiveNodes in per && !Refused(cfg, l, n, input) ==>
        per[ActiveNodes].accepted && !per[ActiveNodes].exceedsCredits)
    && (ActiveNodes in per && AllRefused(cfg, l, n, input) ==> per[ActiveNodes].exceedsCredits)
  }

  ghost predicate OnlyReport(reports: set<FlushReport>, rp: FlushReport) {
    forall other :: other in reports && other.flush == rp.flush ==> other == rp
  }

  /** After a refusal there is one report at most; otherwise all of them accept the gauge. */
  ghost predicate GaugeReportsOk(cfg: Config, inputs: Inputs, l: State, reports: set<FlushReport>) {
    forall rp :: rp in reports && rp.flush in inputs ==>
      && GaugeEntryOk(cfg, l, rp.flush, inputs[rp.flush], rp.result.perResource)
      && (Refused(cfg, l, rp.flush, inputs[rp.flush]) ==> OnlyReport(reports, rp))
  }

  ghost predicate RepliesLackGauge(replies: set<UsageReply>) {
    forall u :: u in replies ==> ActiveNodes !in u.perResource
  }

  ghost predicate ReportsConsistent(s: Sys) {
    RepliesLackGauge(s.usageReplies) && GaugeReportsOk(s.config, s.inputs, s.ledger, s.reports)
  }

  /** Once a report was made, it is decided whether anything was refused. */
  lemma {:induction false} RefusedIsDecided(cfg: Config, l: State, l': State, n: nat, input: BatchInput,
      res: BatchResult)
    requires FlushAnswered(cfg, l, n, input, res) && Extends(l, l') && l'.transfers.Keys !! l'.failed
    ensures Refused(cfg, l', n, input) <==> Refused(cfg, l, n, input)
  {
    if Refused(cfg, l, n, input) {
      var c :| c in Latest(input.heartbeats) && GaugeAmount(input, c) > 0 && Pid(cfg.tenant, n, c) in l.failed;
      assert Pid(cfg.tenant, n, c) in l'.failed;
    }
    if Refused(cfg, l', n, input) {
      var c :| c in Latest(input.heartbeats) && GaugeAmount(input, c) > 0 && Pid(cfg.tenant, n, c) in l'.failed;
      assert ClusterAnswered(cfg, l, n, input, c, res.gauge[c]);
    }
  }

  lemma {:induction false} AllRefusedIsDecided(cfg: Config, l: State, l': State, n: nat, input: BatchInput,
      res: BatchResult)
    requires FlushAnswered(cfg, l, n, input, res) && Extends(l, l') && l'.transfers.Keys !! l'.failed
    ensures AllRefused(cfg, l', n, input) ==> AllRefused(cfg, l, n, input)
  {
    if AllRefused(cfg, l', n, input) {
      forall c | c in Latest(input.heartbeats) ensures Pid(cfg.tenant, n, c) in l.failed {
        assert ClusterAnswered(cfg, l, n, input, c, res.gauge[c]);
      }
    }
  }

  lemma {:induction false} ReportsStay(s: Sys, l': State)
    requires Answered(s) && ReportsConsistent(s) && Extends(s.ledger, l') && l'.transfers.Keys !! l'.failed
    ensures GaugeReportsOk(s.config, s.inputs, l', s.reports)
  {
    forall rp | rp in s.reports && rp.flush in s.inputs
      ensures GaugeEntryOk(s.config, l', rp.flush, s.inputs[rp.flush], rp.result.perResource)
      ensures Refused(s.config, l', rp.flush, s.inputs[rp.flush]) ==> OnlyReport(s.reports, rp)
    {
      RefusedIsDecided(s.config, s.ledger, l', rp.flush, s.inputs[rp.flush], rp.result);
      AllRefusedIsDecided(s.config, s.ledger, l', rp.flush, s.inputs[rp.flush], rp.result);
    }
  }

  lemma {:induction false} OrderIsEmptyIff(o: seq<Uuid>, m: map<Uuid, Heartbeat>)
    requires IsOrder(o, m.Keys)
    ensures o == [] <==> m == map[]
  {
    if o != [] {
      assert o[0] in m;
    }
    if m != map[] {
      var c :| c in m;
      assert c in o;
    }
  }

  lemma {:induction false} RefusalIsOnLedger(cfg: Config, l: State, n: nat, input: BatchInput, o: seq<Uuid>, i: nat)
    requires Valid(l) && Shaped(cfg, n, input) && KnowsClusters(input, o) && i < |o|
    requires AllTolerated(GaugeRequest(input, o), Outcomes(l, GaugeRequest(input, o)))
    requires GaugeResultAt(GaugeUpdates(input, o), Outcomes(l, GaugeRequest(input, o)), i).exceedsCredits
    ensures Refused(cfg, Run(l, GaugeRequest(input, o)), n, input)
  {
    GaugeResultStands(l, GaugeUpdates(input, o), i);
    UpdateParts(cfg, n, input, o[i]);
    assert o[i] in Latest(input.heartbeats);
  }

  lemma {:induction false} AllRefusedEndsSo(cfg: Config, l: State, n: nat, input: BatchInput, o: seq<Uuid>, i: nat)
    requires Valid(l) && Shaped(cfg, n, input) && KnowsClusters(input, o) && i < |o|
    requires AllTolerated(GaugeRequest(input, o), Outcomes(l, GaugeRequest(input, o)))
    requires AllRefused(cfg, Run(l, GaugeRequest(input, o)), n, input)
    ensures GaugeResultAt(GaugeUpdates(input, o), Outcomes(l, GaugeRequest(input, o)), i).exceedsCredits
  {
    GaugeResultStands(l, GaugeUpdates(input, o), i);
    UpdateParts(cfg, n, input, o[i]);
    RunValid(l, GaugeRequest(input, o));
    assert o[i] in Latest(input.heartbeats);
  }

  /** The gauge's entry is the result of the last update. */
  lemma {:induction false} ReportedGaugeEntry(input: BatchInput, o: seq<Uuid>, per: map<Resource, TransferResult>,
      os: seq<Outcome>)
    requires KnowsClusters(input, o) && |os| == |GaugeRequest(input, o)| && o != []
    ensures var r := GaugeResultAt(GaugeUpdates(input, o), os, |o| - 1);
            && Report(input, o, per, os).perResource ==
                per[ActiveNodes := TransferResult(r.accepted, r.exceedsCredits, false)]
            && r.accepted == !r.exceedsCredits
  {
  }

  lemma {:induction false} EntryFromLast(cfg: Config, l: State, n: nat, input: BatchInput,
      per: map<Resource, TransferResult>, r: GaugeResult)
    requires Latest(input.heartbeats) != map[] && r.accepted == !r.exceedsCredits
    requires ActiveNodes in per && per[ActiveNodes] == TransferResult(r.accepted, r.exceedsCredits, false)
    requires r.exceedsCredits ==> Refused(cfg, l, n, input)
    requires AllRefused(cfg, l, n, input) ==> r.exceedsCredits
    ensures GaugeEntryOk(cfg, l, n, input, per)
  {
  }

  /** The gauge's entry in a fresh report. */
  lemma {:induction false} NewGaugeEntry(cfg: Config, l: State, n: nat, input: BatchInput, o: seq<Uuid>,
      per: map<Resource, TransferResult>)
    requires Valid(l) && Shaped(cfg, n, input) && KnowsClusters(input, o)
    requires (o == [] <==> Latest(input.heartbeats) == map[])
    requires AllTolerated(GaugeRequest(input, o), Outcomes(l, GaugeRequest(input, o))) && ActiveNodes !in per
    ensures GaugeEntryOk(cfg, Run(l, GaugeRequest(input, o)), n, input,
                         Report(input, o, per, Outcomes(l, GaugeRequest(input, o))).perResource)
  {
    var gs := GaugeRequest(input, o);
    var os := Outcomes(l, gs);
    if o != [] {
      var r := GaugeResultAt(GaugeUpdates(input, o), os, |o| - 1);
      ReportedGaugeEntry(input, o, per, os);
      if r.exceedsCredits {
        RefusalIsOnLedger(cfg, l, n, input, o, |o| - 1);
      }
      if AllRefused(cfg, Run(l, gs), n, input) {
        AllRefusedEndsSo(cfg, l, n, input, o, |o| - 1);
      }
      EntryFromLast(cfg, Run(l, gs), n, input, Report(input, o, per, os).perResource, r);
    }
  }

  /** A flush that was reported before has nothing left to settle. */
  lemma {:induction false} ReportedIsSettled(s: Sys, rp: FlushReport, o: seq<Uuid>)
    requires Inv(s) && rp in s.reports && rp.flush in s.inputs && KnowsClusters(s.inputs[rp.flush], o)
    ensures Run(s.ledger, GaugeRequest(s.inputs[rp.flush], o)) == s.ledger
  {
    var n := rp.flush;
    var input := s.inputs[n];
    assert FlushAnswered(s.config, s.ledger, n, input, rp.result);
    forall t | t in GaugeRequest(input, o) ensures Settled(s.ledger, t) {
      GaugeTransferShape(s, n, o, t);
      GaugeIdsCarryNumber(s, n, o, t);
      assert ClusterAnswered(s.config, s.ledger, n, input, t.id.cluster, rp.result.gauge[t.id.cluster]);
    }
    GaugeAgain(s, n, o);
  }

  /** What was refused before makes the whole gauge request fail. */
  lemma {:induction false} RefusedFails(s: Sys, n: nat, o: seq<Uuid>)
    requires Inv(s) && n in s.inputs && KnowsClusters(s.inputs[n], o) && IsOrder(o, Latest(s.inputs[n].heartbeats).Keys)
    requires Refused(s.config, s.ledger, n, s.inputs[n])
    ensures !AllTolerated(GaugeRequest(s.inputs[n], o), Outcomes(s.ledger, GaugeRequest(s.inputs[n], o)))
  {
    var input := s.inputs[n];
    var c :| c in Latest(input.heartbeats) && GaugeAmount(input, c) > 0
             && Pid(s.config.tenant, n, c) in s.ledger.failed;
    var us := GaugeUpdates(input, o);
    var i :| 0 <= i < |o| && o[i] == c;
    UpdateParts(s.config, n, input, c);
    var t := ReserveTransfer(us[i]);
    assert us[i] in us && t in ReservePart(us[i]);
    BatchMembers(us, t);
    GaugeToleratedIff(s, n, o);
  }

  lemma {:induction false} NoEarlierReport(s: Sys, n: nat, o: seq<Uuid>, rp: FlushReport)
    requires Inv(s) && n in s.inputs && KnowsClusters(s.inputs[n], o) && IsOrder(o, Latest(s.inputs[n].heartbeats).Keys)
    requires AllTolerated(GaugeRequest(s.inputs[n], o), Outcomes(s.ledger, GaugeRequest(s.inputs[n], o)))
    requires rp in s.reports && rp.flush == n
    ensures !Refused(s.config, Run(s.ledger, GaugeRequest(s.inputs[n], o)), n, s.inputs[n])
  {
    ReportedIsSettled(s, rp, o);
    if Refused(s.config, s.ledger, n, s.inputs[n]) {
      RefusedFails(s, n, o);
    }
  }

  lemma {:induction false} AddGaugeReport(cfg: Config, inputs: Inputs, l: State, reports: set<FlushReport>,
      rp: FlushReport)
    requires GaugeReportsOk(cfg, inputs, l, reports) && rp.flush in inputs
    requires GaugeEntryOk(cfg, l, rp.flush, inputs[rp.flush], rp.result.perResource)
    requires Refused(cfg, l, rp.flush, inputs[rp.flush]) ==>
               forall other :: other in reports ==> other.flush != rp.flush
    ensures GaugeReportsOk(cfg, inputs, l, reports + {rp})
  {
  }

  lemma {:induction false} NewReportOk(s: Sys, reply: UsageReply, o: seq<Uuid>)
    requires Inv(s) && ReportsConsistent(s) && Enabled(s, DeliverGauge(reply, o))
    requires AllTolerated(GaugeRequest(s.inputs[reply.flush], o),
                          Outcomes(s.ledger, GaugeRequest(s.inputs[reply.flush], o)))
    ensures var s' := SendGauge(s, reply, o); GaugeReportsOk(s.config, s.inputs, s'.ledger, s'.reports)
  {
    var n, input := reply.flush, s.inputs[reply.flush];
    var gs := GaugeRequest(input, o);
    var l' := Run(s.ledger, gs);
    DeliveredReported(s, gs);
    OrderIsEmptyIff(o, Latest(input.heartbeats));
    NewGaugeEntry(s.config, s.ledger, n, input, o, reply.perResource);
    forall rp | rp in s.reports && Refused(s.config, l', n, input) ensures rp.flush != n {
      if rp.flush == n {
        NoEarlierReport(s, n, o, rp);
      }
    }
    AddGaugeReport(s.config, s.inputs, l', s.reports,
                   FlushReport(n, Report(input, o, reply.perResource, Outcomes(s.ledger, gs))));
  }

  lemma {:induction false} UsageLacksGauge(tenant: Uuid, hbs: seq<Heartbeat>, os: seq<Outcome>)
    requires |os| == |UsageBatch(tenant, hbs)|
    ensures ActiveNodes !in PerResource(UsageBatch(tenant, hbs), os)
  {
    var ts := UsageBatch(tenant, hbs);
    PerResourceIsLast(ts, os, ActiveNodes);
    if LastIndex(ts, ActiveNodes).Some? {
      UsageBatchMembers(tenant, hbs, ts[LastIndex(ts, ActiveNodes).value]);
    }
  }

  lemma {:induction false} DeliveredReported(s: Sys, ts: seq<Transfer>)
    requires Inv(s) && ReportsConsistent(s)
    ensures GaugeReportsOk(s.config, s.inputs, Run(s.ledger, ts), s.reports)
  {
    RunValid(s.ledger, ts);
    RunExtends(s.ledger, ts);
    ReportsStay(s, Run(s.ledger, ts));
  }

  lemma {:induction false} DeliverUsageConsistent(s: Sys, n: nat)
    requires Inv(s) && ReportsConsistent(s) && n in s.inputs
    ensures ReportsConsistent(SendUsage(s, n))
  {
    DeliveredReported(s, UsageRequest(s.inputs[n]));
    UsageLacksGauge(s.inputs[n].tenant, s.inputs[n].heartbeats, Outcomes(s.ledger, UsageRequest(s.inputs[n])));
  }

  lemma {:induction false} DeliverGaugeConsistent(s: Sys, reply: UsageReply, o: seq<Uuid>)
    requires reply.flush in s.inputs && KnowsClusters(s.inputs[reply.flush], o)
    requires Inv(s) && ReportsConsistent(s) && Enabled(s, DeliverGauge(reply, o))
    ensures ReportsConsistent(SendGauge(s, reply, o))
  {
    var gs := GaugeRequest(s.inputs[reply.flush], o);
    if AllTolerated(gs, Outcomes(s.ledger, gs)) {
      NewReportOk(s, reply, o);
    } else {
      DeliveredReported(s, gs);
    }
  }

  lemma {:induction false} StartConsistent(s: Sys)
    requires Numbered(s) && Started(s) && ReportsConsistent(s)
    ensures ReportsConsistent(StartFlush(s))
  {
    assert forall rp :: rp in s.reports ==>
        rp.flush in s.inputs && StartFlush(s).inputs[rp.flush] == s.inputs[rp.flush];
  }

  /** A flush's own steps: it starts, and its requests reach the ledger. */
  lemma {:induction false} FlushStepConsistent(s: Sys, e: Event)
    requires Inv(s) && ReportsConsistent(s) && Enabled(s, e) && (e.FlushStart? || e.DeliverUsage? || e.DeliverGauge?)
    ensures ReportsConsistent(Next(s, e))
  {
    match e {
      case FlushStart => StartConsistent(s);
      case DeliverUsage(n) => DeliverUsageConsistent(s, n);
      case DeliverGauge(reply, o) => DeliverGaugeConsistent(s, reply, o);
    }
  }

  lemma {:induction false} OtherStepConsistent(s: Sys, e: Event)
    requires Inv(s) && ReportsConsistent(s) && !e.FlushStart? && !e.DeliverUsage? && !e.DeliverGauge?
    ensures ReportsConsistent(Next(s, e))
  {
    if e.DeliverCredit? && Enabled(s, e) {
      DeliveredReported(s, [CreditTransfer(s.config, e.credit, s.credits[e.credit])]);
    } else if e.DeliverInitial? {
      DeliveredReported(s, InitialRequest(s.config, |AllResources|));
    }
  }

  lemma {:induction false} ReportsConsistentNext(s: Sys, e: Event)
    requires Inv(s) && ReportsConsistent(s)
    ensures ReportsConsistent(Next(s, e))
  {
    if !Enabled(s, e) {
    } else if e.FlushStart? || e.DeliverUsage? || e.DeliverGauge? {
      FlushStepConsistent(s, e);
    } else {
      OtherStepConsistent(s, e);
    }
  }

  lemma {:induction false} ExecReportsConsistent(cfg: Config, es: seq<Event>)
    ensures ReportsConsistent(Exec(Init(cfg), es))
    decreases |es|
  {
    if es != [] {
      ExecReportsConsistent(cfg, es[..|es| - 1]);
      ExecInv(cfg, es[..|es| - 1]);
      ReportsConsistentNext(Exec(Init(cfg), es[..|es| - 1]), es[|es| - 1]);
    }
  }

  /** Same verdict; only whether the transfer had been there before may differ. */
  predicate SameVerdict(a: map<Resource, TransferResult>, b: map<Resource, TransferResult>, r: Resource) {
    && (r in a <==> r in b)
    && (r in a ==> a[r].accepted == b[r].accepted && a[r].exceedsCredits == b[r].exceedsCredits)
  }

  lemma {:induction false} GaugeAnswersAgree(s: Sys, n: nat, c: Uuid, g: Option<TransferId>, h: Option<TransferId>)
    requires Booked(s) && n in s.inputs && c in Latest(s.inputs[n].heartbeats)
    requires ClusterAnswered(s.config, s.ledger, n, s.inputs[n], c, g)
    requires ClusterAnswered(s.config, s.ledger, n, s.inputs[n], c, h)
    ensures g == h
  {
    var id := Pid(s.config.tenant, n, c);
    if id in s.ledger.transfers {
      assert Genuine(s.config, s.inputs, s.credits, s.ledger.transfers[id]);
    }
  }

  lemma {:induction false} UsageAnswersAgree(l: State, ts: seq<Transfer>, a: map<Resource, TransferResult>,
      b: map<Resource, TransferResult>, r: Resource)
    requires UsageAnswered(l, ts, a) && UsageAnswered(l, ts, b) && l.transfers.Keys !! l.failed && !r.IsGauge()
    ensures SameVerdict(a, b, r)
  {
    assert ResultOfLast(l, ts, a, r) && ResultOfLast(l, ts, b, r);
  }

  lemma {:induction false} GaugeEntriesAgree(cfg: Config, inputs: Inputs, l: State, reports: set<FlushReport>, n: nat,
      a: BatchResult, b: BatchResult)
    requires GaugeReportsOk(cfg, inputs, l, reports) && n in inputs && FlushReport(n, a) in reports
    requires FlushReport(n, b) in reports
    ensures SameVerdict(a.perResource, b.perResource, ActiveNodes)
  {
    assert GaugeEntryOk(cfg, l, n, inputs[n], FlushReport(n, a).result.perResource);
    assert GaugeEntryOk(cfg, l, n, inputs[n], FlushReport(n, b).result.perResource);
  }

  /**
   * Whatever attempt it comes from and whatever its order of clusters, a flush's report says the
   * same, for every resource: the same reservations, accepted or refused alike.
   */
  lemma {:induction false} ReportsAgree(cfg: Config, es: seq<Event>, n: nat, a: BatchResult, b: BatchResult)
    requires FlushReport(n, a) in Exec(Init(cfg), es).reports && FlushReport(n, b) in Exec(Init(cfg), es).reports
    ensures a.gauge == b.gauge
    ensures forall r: Resource :: SameVerdict(a.perResource, b.perResource, r)
  {
    var s := Exec(Init(cfg), es);
    ExecInv(cfg, es);
    ExecReportsConsistent(cfg, es);
    var input := s.inputs[n];
    assert FlushAnswered(s.config, s.ledger, n, input, a) && FlushAnswered(s.config, s.ledger, n, input, b);
    forall c | c in a.gauge ensures a.gauge[c] == b.gauge[c] {
      assert ClusterAnswered(s.config, s.ledger, n, input, c, a.gauge[c]);
      assert ClusterAnswered(s.config, s.ledger, n, input, c, b.gauge[c]);
      GaugeAnswersAgree(s, n, c, a.gauge[c], b.gauge[c]);
    }
    forall r: Resource ensures SameVerdict(a.perResource, b.perResource, r) {
      if r.IsGauge() {
        GaugeEntriesAgree(s.config, s.inputs, s.ledger, s.reports, n, a, b);
      } else {
        UsageAnswersAgree(s.ledger, UsageRequest(input), a.perResource, b.perResource, r);
      }
    }
  }

  // ---------------------------------------------------------------------------------------------
  // The gauge's flag
  // ---------------------------------------------------------------------------------------------

  /** A report of the flush refuses the gauge. */
  ghost predicate GaugeRejected(reports: set<FlushReport>, n: nat) {
    exists rp :: rp in reports && rp.flush == n && ActiveNodes in rp.result.perResource
                 && rp.result.perResource[ActiveNodes].exceedsCredits
  }

  /** What the latest applied flush or credit for the gauge says about it. */
  ghost function GaugeVerdict(reports: set<FlushReport>, credits: Credits, log: seq<Entry>): bool {
    if log == [] then false
    else
      match log[|log| - 1]
      case FlushDone(n) => GaugeRejected(reports, n)
      case CreditDone(n) =>
        !(n in credits && credits[n].resource == ActiveNodes) && GaugeVerdict(reports, credits, log[..|log| - 1])
  }

  ghost predicate HasReport(reports: set<FlushReport>, n: nat) {
    exists rp :: rp in reports && rp.flush == n
  }

  ghost predicate GaugeFlagged(s: Sys) {
    && (forall n :: n in s.inputs ==> s.inputs[n].heartbeats != [])
    && (forall n :: FlushDone(n) in s.log ==> HasReport(s.reports, n))
    && (ActiveNodes in s.wf.exceeded <==> GaugeVerdict(s.reports, s.credits, s.log))
  }

  lemma {:induction false} GaugeVerdictStays(reports: set<FlushReport>, reports': set<FlushReport>, credits: Credits,
      credits': Credits, log: seq<Entry>)
    requires forall n :: FlushDone(n) in log ==> (GaugeRejected(reports', n) <==> GaugeRejected(reports, n))
    requires forall n :: CreditDone(n) in log ==> n in credits && n in credits' && credits'[n] == credits[n]
    ensures GaugeVerdict(reports', credits', log) == GaugeVerdict(reports, credits, log)
    decreases |log|
  {
    if log != [] {
      var zs, z := log[..|log| - 1], log[|log| - 1];
      assert z in log;
      assert (z.FlushDone? ==> FlushDone(z.flush) in log) && (z.CreditDone? ==> CreditDone(z.credit) in log);
      GaugeVerdictStays(reports, reports', credits, credits', zs);
    }
  }

  /** A further report does not change what the reports say. */
  lemma {:induction false} RejectionStays(cfg: Config, inputs: Inputs, l: State, reports: set<FlushReport>,
      rp: FlushReport, n: nat)
    requires GaugeReportsOk(cfg, inputs, l, reports + {rp}) && rp.flush in inputs && HasReport(reports, n)
    ensures GaugeRejected(reports + {rp}, n) <==> GaugeRejected(reports, n)
  {
    if rp.flush == n {
      var earlier :| earlier in reports && earlier.flush == n;
      assert earlier == FlushReport(n, earlier.result) && rp == FlushReport(n, rp.result);
      GaugeEntriesAgree(cfg, inputs, l, reports + {rp}, n, earlier.result, rp.result);
    }
  }

  lemma {:induction false} NewReportFlagged(s: Sys, rp: FlushReport, l: State)
    requires GaugeFlagged(s) && LogOk(s.log, s.done, s.acked) && s.acked <= s.credits.Keys
    requires GaugeReportsOk(s.config, s.inputs, l, s.reports + {rp}) && rp.flush in s.inputs
    ensures GaugeVerdict(s.reports + {rp}, s.credits, s.log) == GaugeVerdict(s.reports, s.credits, s.log)
    ensures forall n :: FlushDone(n) in s.log ==> HasReport(s.reports + {rp}, n)
  {
    forall n | FlushDone(n) in s.log
      ensures HasReport(s.reports + {rp}, n) && (GaugeRejected(s.reports + {rp}, n) <==> GaugeRejected(s.reports, n))
    {
      var earlier :| earlier in s.reports && earlier.flush == n;
      assert earlier in s.reports + {rp};
      RejectionStays(s.config, s.inputs, l, s.reports, rp, n);
    }
    GaugeVerdictStays(s.reports, s.reports + {rp}, s.credits, s.credits, s.log);
  }

  lemma {:induction false} DeliverGaugeFlagged(s: Sys, reply: UsageReply, o: seq<Uuid>)
    requires reply.flush in s.inputs && KnowsClusters(s.inputs[reply.flush], o)
    requires Inv(s) && ReportsConsistent(s) && GaugeFlagged(s) && Enabled(s, DeliverGauge(reply, o))
    ensures GaugeFlagged(SendGauge(s, reply, o))
  {
    var input := s.inputs[reply.flush];
    var gs := GaugeRequest(input, o);
    if AllTolerated(gs, Outcomes(s.ledger, gs)) {
      NewReportOk(s, reply, o);
      NewReportFlagged(s, FlushReport(reply.flush, Report(input, o, reply.perResource, Outcomes(s.ledger, gs))),
                       Run(s.ledger, gs));
    }
  }

  lemma {:induction false} ReportDecides(cfg: Config, inputs: Inputs, l: State, reports: set<FlushReport>, n: nat,
      res: BatchResult, exceeded: set<Resource>)
    requires GaugeReportsOk(cfg, inputs, l, reports) && n in inputs && inputs[n].heartbeats != []
    requires FlushReport(n, res) in reports
    ensures ActiveNodes in ExceededAfter(exceeded, res.perResource) <==> GaugeRejected(reports, n)
  {
    LatestIsHighest(inputs[n].heartbeats);
    assert inputs[n].heartbeats[0] in inputs[n].heartbeats;
    assert GaugeEntryOk(cfg, l, n, inputs[n], FlushReport(n, res).result.perResource);
    if GaugeRejected(reports, n) {
      var rp :| rp in reports && rp.flush == n && ActiveNodes in rp.result.perResource
                && rp.result.perResource[ActiveNodes].exceedsCredits;
      assert rp == FlushReport(n, rp.result);
      GaugeEntriesAgree(cfg, inputs, l, reports, n, rp.result, res);
    }
  }

  lemma {:induction false} CompleteGaugeFlagged(s: Sys, res: BatchResult)
    requires GaugeReportsOk(s.config, s.inputs, s.ledger, s.reports) && GaugeFlagged(s)
    requires Enabled(s, FlushComplete(res)) && s.flushing.value in s.inputs
    ensures GaugeFlagged(CompleteFlush(s, res))
  {
    var n, s' := s.flushing.value, CompleteFlush(s, res);
    ReportDecides(s.config, s.inputs, s.ledger, s.reports, n, res, s.wf.exceeded);
    forall k | FlushDone(k) in s'.log ensures HasReport(s.reports, k) {
      if k == n {
        assert FlushReport(n, res) in s.reports;
      } else {
        assert FlushDone(k) in s.log;
      }
    }
  }

  lemma {:induction false} CreditGaugeFlagged(s: Sys, n: nat)
    requires GaugeFlagged(s) && n in s.credits
    ensures GaugeFlagged(CompleteCredit(s, n)) && GaugeFlagged(FailCredit(s, n))
  {
    var s' := CompleteCredit(s, n);
    assert s'.log[..|s'.log| - 1] == s.log;
    forall k | FlushDone(k) in s'.log ensures HasReport(s.reports, k) {
      assert FlushDone(k) in s.log;
    }
  }

  lemma {:induction false} StartGaugeFlagged(s: Sys, r: Resource, amount: int64)
    requires Numbered(s) && Started(s) && LogOk(s.log, s.done, s.acked) && GaugeFlagged(s)
    ensures GaugeFlagged(StartCredit(s, r, amount))
  {
    var s' := StartCredit(s, r, amount);
    forall n | CreditDone(n) in s.log ensures n in s.credits && n in s'.credits && s'.credits[n] == s.credits[n] {
      assert n in s.acked;
    }
    GaugeVerdictStays(s.reports, s.reports, s.credits, s'.credits, s.log);
  }

  lemma {:induction false} StepGaugeFlagged(s: Sys, e: Event)
    requires Numbered(s) && Started(s) && LogOk(s.log, s.done, s.acked) && GaugeFlagged(s)
    requires !e.DeliverGauge? && !e.FlushComplete?
    ensures GaugeFlagged(Next(s, e))
  {
    if Enabled(s, e) {
      match e {
        case CreditStart(r, amount) => StartGaugeFlagged(s, r, amount);
        case CreditComplete(n) => CreditGaugeFlagged(s, n);
        case CreditFail(n) => CreditGaugeFlagged(s, n);
        case _ =>
      }
    }
  }

  lemma {:induction false} GaugeFlaggedNext(s: Sys, e: Event)
    requires Inv(s) && ReportsConsistent(s) && GaugeFlagged(s)
    ensures GaugeFlagged(Next(s, e))
  {
    if !Enabled(s, e) {
    } else if e.DeliverGauge? {
      DeliverGaugeFlagged(s, e.reply, e.order);
    } else if e.FlushComplete? {
      CompleteGaugeFlagged(s, e.result);
    } else {
      StepGaugeFlagged(s, e);
    }
  }

  lemma {:induction false} ExecGaugeFlagged(cfg: Config, es: seq<Event>)
    ensures GaugeFlagged(Exec(Init(cfg), es))
    decreases |es|
  {
    if es != [] {
      var zs := es[..|es| - 1];
      ExecGaugeFlagged(cfg, zs);
      ExecInv(cfg, zs);
      ExecReportsConsistent(cfg, zs);
      GaugeFlaggedNext(Exec(Init(cfg), zs), es[|es| - 1]);
    }
  }

  /** What the ledger holds decides the verdict, up to the order of clusters. */
  ghost predicate VerdictOnLedger(cfg: Config, l: State, n: nat, input: BatchInput, rejected: bool) {
    && (rejected ==> Refused(cfg, l, n, input))
    && (AllRefused(cfg, l, n, input) ==> rejected)
    && (forall c :: Latest(input.heartbeats).Keys == {c} ==>
          (rejected <==> GaugeAmount(input, c) > 0 && Pid(cfg.tenant, n, c) in l.failed))
  }

  lemma {:induction false} OnlyClusterDecides(cfg: Config, l: State, n: nat, input: BatchInput, c: Uuid)
    requires Latest(input.heartbeats).Keys == {c}
    ensures Refused(cfg, l, n, input) <==> GaugeAmount(input, c) > 0 && Pid(cfg.tenant, n, c) in l.failed
    ensures AllRefused(cfg, l, n, input) <==> GaugeAmount(input, c) > 0 && Pid(cfg.tenant, n, c) in l.failed
  {
    assert c in Latest(input.heartbeats);
  }

  lemma {:induction false} VerdictOfEntry(cfg: Config, l: State, n: nat, input: BatchInput,
      per: map<Resource, TransferResult>)
    requires GaugeEntryOk(cfg, l, n, input, per) && Latest(input.heartbeats) != map[]
    ensures VerdictOnLedger(cfg, l, n, input, per[ActiveNodes].exceedsCredits)
  {
    forall c | Latest(input.heartbeats).Keys == {c}
      ensures per[ActiveNodes].exceedsCredits <==> GaugeAmount(input, c) > 0 && Pid(cfg.tenant, n, c) in l.failed
    {
      OnlyClusterDecides(cfg, l, n, input, c);
    }
  }

  lemma {:induction false} ReportOnLedger(cfg: Config, inputs: Inputs, l: State, reports: set<FlushReport>,
      rp: FlushReport)
    requires GaugeReportsOk(cfg, inputs, l, reports) && rp in reports && rp.flush in inputs
    requires inputs[rp.flush].heartbeats != []
    ensures VerdictOnLedger(cfg, l, rp.flush, inputs[rp.flush], GaugeRejected(reports, rp.flush))
  {
    var n, res := rp.flush, rp.result;
    LatestIsHighest(inputs[n].heartbeats);
    assert inputs[n].heartbeats[0] in inputs[n].heartbeats;
    assert rp == FlushReport(n, res);
    ReportDecides(cfg, inputs, l, reports, n, res, {});
    VerdictOfEntry(cfg, l, n, inputs[n], res.perResource);
    assert GaugeRejected(reports, n) <==> res.perResource[ActiveNodes].exceedsCredits;
  }

  lemma {:induction false} LogOnLedger(s: Sys, n: nat)
    requires Started(s) && ReportsConsistent(s) && GaugeFlagged(s)
    requires FlushDone(n) in s.log
    ensures n in s.inputs && VerdictOnLedger(s.config, s.ledger, n, s.inputs[n], GaugeRejected(s.reports, n))
  {
    assert HasReport(s.reports, n);
    var rp :| rp in s.reports && rp.flush == n;
    ReportOnLedger(s.config, s.inputs, s.ledger, s.reports, rp);
  }

  /**
   * In every state, the gauge is flagged exactly when the latest applied flush, or credit for the
   * gauge, was a flush that refuses it. A flush that refuses it has a refused reservation on the
   * ledger, one whose reservations were all refused does refuse it, and for a flush of one
   * cluster that is the same. With more clusters, the order of clusters decides.
   */
  lemma {:induction false} GaugeFlaggedIffLastRejected(cfg: Config, es: seq<Event>)
    ensures var s := Exec(Init(cfg), es);
            && (ActiveNodes in s.wf.exceeded <==> GaugeVerdict(s.reports, s.credits, s.log))
            && (forall n :: FlushDone(n) in s.log ==>
                  n in s.inputs && VerdictOnLedger(s.config, s.ledger, n, s.inputs[n], GaugeRejected(s.reports, n)))
  {
    var s := Exec(Init(cfg), es);
    ExecGaugeFlagged(cfg, es);
    ExecInv(cfg, es);
    ExecReportsConsistent(cfg, es);
    forall n | FlushDone(n) in s.log
      ensures n in s.inputs && VerdictOnLedger(s.config, s.ledger, n, s.inputs[n], GaugeRejected(s.reports, n))
    {
      LogOnLedger(s, n);
    }
  }

  // ---------------------------------------------------------------------------------------------
  // When the record matches the ledger
  // ---------------------------------------------------------------------------------------------

  /** A flush later than a cluster's tracked reservation was started with it. */
  ghost predicate Inherited(inputs: Inputs, pending: map<Uuid, TransferId>) {
    forall n, c :: n in inputs && c in pending && pending[c].seqNo < n ==>
      c in inputs[n].pendingGauge && inputs[n].pendingGauge[c] == pending[c]
  }

  lemma {:induction false} CompleteInherited(cfg: Config, inputs: Inputs, l: State, pending: map<Uuid, TransferId>,
      n: nat, res: BatchResult)
    requires Inherited(inputs, pending) && n in inputs && FlushAnswered(cfg, l, n, inputs[n], res)
    requires forall k :: k in inputs ==> k <= n
    ensures Inherited(inputs, GaugeAfter(pending, res.gauge))
  {
    var pending' := GaugeAfter(pending, res.gauge);
    forall c | c in pending'
      ensures if c in res.gauge then pending'[c].seqNo == n else c in pending && pending'[c] == pending[c]
    {
      if c in res.gauge {
        assert ClusterAnswered(cfg, l, n, inputs[n], c, res.gauge[c]);
      }
    }
  }

  lemma {:induction false} CompleteInherits(s: Sys, res: BatchResult)
    requires Waiting(s) && Answered(s) && Inherited(s.inputs, s.wf.pendingGauge) && Enabled(s, FlushComplete(res))
    ensures Inherited(CompleteFlush(s, res).inputs, CompleteFlush(s, res).wf.pendingGauge)
  {
    var n := s.flushing.value;
    assert FlushAnswered(s.config, s.ledger, n, s.inputs[n], FlushReport(n, res).result);
    CompleteInherited(s.config, s.inputs, s.ledger, s.wf.pendingGauge, n, res);
  }

  lemma {:induction false} InheritedNext(s: Sys, e: Event)
    requires Numbered(s) && Waiting(s) && Answered(s) && Inherited(s.inputs, s.wf.pendingGauge)
    ensures Inherited(Next(s, e).inputs, Next(s, e).wf.pendingGauge)
  {
    if !Enabled(s, e) {
    } else if e.FlushComplete? {
      CompleteInherits(s, e.result);
    } else if e.FlushStart? {
      StartInherits(s);
    }
  }

  lemma {:induction false} StartInherits(s: Sys)
    requires Numbered(s) && Inherited(s.inputs, s.wf.pendingGauge)
    ensures Inherited(StartFlush(s).inputs, StartFlush(s).wf.pendingGauge)
  {
  }

  lemma {:induction false} ExecInherited(cfg: Config, es: seq<Event>)
    ensures Inherited(Exec(Init(cfg), es).inputs, Exec(Init(cfg), es).wf.pendingGauge)
    decreases |es|
  {
    if es != [] {
      ExecInherited(cfg, es[..|es| - 1]);
      ExecInv(cfg, es[..|es| - 1]);
      InheritedNext(Exec(Init(cfg), es[..|es| - 1]), es[|es| - 1]);
    }
  }

  /**
   * A gauge transfer on the ledger does no harm to the record: its flush completed, or it is a
   * void for a cluster that is untracked or tracked by a later flush.
   */
  predicate Harmless(s: Sys, id: TransferId) {
    || id.seqNo in s.done
    || (id.GaugeVoidId? && (id.cluster in s.wf.pendingGauge ==> id.seqNo < s.wf.pendingGauge[id.cluster].seqNo))
  }

  ghost predicate AllHarmless(s: Sys) {
    forall id :: id in s.ledger.transfers && (id.GaugePendingId? || id.GaugeVoidId?) ==> Harmless(s, id)
  }

  lemma {:induction false} VoidHitItsTarget(s: Sys, v: TransferId)
    requires Booked(s) && v in s.ledger.transfers && v.GaugeVoidId?
    ensures v.seqNo in s.inputs && v.cluster in s.inputs[v.seqNo].pendingGauge
    ensures s.inputs[v.seqNo].pendingGauge[v.cluster] in s.ledger.voidedBy
  {
    assert Genuine(s.config, s.inputs, s.credits, s.ledger.transfers[v]);
  }

  /** A void by a flush later than the one that a cluster is tracked by hit the tracked reservation. */
  lemma {:induction false} LaterVoidHitsTracked(s: Sys, v: TransferId)
    requires Booked(s) && Inherited(s.inputs, s.wf.pendingGauge)
    requires v in s.ledger.transfers && v.GaugeVoidId?
    requires v.cluster in s.wf.pendingGauge && s.wf.pendingGauge[v.cluster].seqNo < v.seqNo
    ensures s.wf.pendingGauge[v.cluster] in s.ledger.voidedBy
  {
    VoidHitItsTarget(s, v);
  }

  lemma {:induction false} TrackedHasCluster(s: Sys, c: Uuid)
    requires Tracks(s) && c in s.wf.pendingGauge
    ensures IsTracked(s, s.wf.pendingGauge[c])
  {
    assert TracksOne(s.config, s.inputs, s.done, s.ledger, c, s.wf.pendingGauge[c], s.wf.flushSeqNo + 1);
  }

  /** A tracked reservation that is gone was voided by a flush that did not complete. */
  lemma {:induction false} VoidedTrackedIsHarmed(s: Sys, id: TransferId)
    requires Inv(s) && IsTracked(s, id) && id in s.ledger.voidedBy
    ensures var v := s.ledger.voidedBy[id];
            v in s.ledger.transfers && v.GaugeVoidId? && !Harmless(s, v)
  {
    VoidedWasCompleted(s, id);
    if s.ledger.voidedBy[id].seqNo in s.done {
      VoidedIsNotTracked(s, id);
    }
  }

  lemma {:induction false} TrackedIsDone(s: Sys, id: TransferId)
    requires Tracks(s) && IsTracked(s, id)
    ensures id.seqNo in s.done && id in s.ledger.transfers
  {
    assert TracksOne(s.config, s.inputs, s.done, s.ledger, id.cluster, id, s.wf.flushSeqNo + 1);
  }

  lemma {:induction false} HarmlessIsMatched(s: Sys, id: TransferId)
    requires Inv(s) && AllHarmless(s)
    ensures IsOpen(s.ledger, id) <==> IsTracked(s, id)
  {
    OpenIsTrackedOrLeft(s, id);
    if IsTracked(s, id) && id in s.ledger.voidedBy {
      VoidedTrackedIsHarmed(s, id);
    }
    if LeftBehind(s, id) {
      assert Harmless(s, id);
    }
  }

  lemma {:induction false} MatchedIsHarmless(s: Sys, id: TransferId)
    requires Inv(s) && Inherited(s.inputs, s.wf.pendingGauge)
    requires forall x :: IsOpen(s.ledger, x) <==> IsTracked(s, x)
    requires id in s.ledger.transfers && (id.GaugePendingId? || id.GaugeVoidId?)
    ensures Harmless(s, id)
  {
    if id.GaugePendingId? {
      OpenIsTrackedOrLeft(s, id);
      if IsTracked(s, id) {
        TrackedIsDone(s, id);
      }
    } else if id.cluster in s.wf.pendingGauge {
      TrackedHasCluster(s, id.cluster);
      TrackedIsDone(s, s.wf.pendingGauge[id.cluster]);
      if s.wf.pendingGauge[id.cluster].seqNo < id.seqNo {
        LaterVoidHitsTracked(s, id);
      }
    }
  }

  /**
   * The workflow's record and the ledger's open reservations agree exactly when every gauge
   * transfer on the ledger belongs to a completed flush, or is a void for a cluster that is
   * untracked or tracked by a later flush.
   */
  lemma {:induction false} RecordMatchesLedgerIff(cfg: Config, es: seq<Event>)
    ensures var s := Exec(Init(cfg), es);
            (forall id :: IsOpen(s.ledger, id) <==> IsTracked(s, id)) <==> AllHarmless(s)
  {
    var s := Exec(Init(cfg), es);
    ExecInv(cfg, es);
    ExecInherited(cfg, es);
    if AllHarmless(s) {
      forall id ensures IsOpen(s.ledger, id) <==> IsTracked(s, id) {
        HarmlessIsMatched(s, id);
      }
    }
    if forall id :: IsOpen(s.ledger, id) <==> IsTracked(s, id) {
      forall id | id in s.ledger.transfers && (id.GaugePendingId? || id.GaugeVoidId?) ensures Harmless(s, id) {
        MatchedIsHarmless(s, id);
      }
    }
  }
}
