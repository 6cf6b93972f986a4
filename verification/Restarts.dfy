/** When a restart can be told from no restart at all. */
module Restarts {
  import opened Domain
  import opened TransferIds
  import opened Ledger
  import opened Transfers
  import opened Replies
  import opened Activities
  import opened Workflow
  import opened Protocol
  import opened Invariant
  import opened Preservation
  import opened Guarantees
  import opened Attempts
  import opened History
  import opened Continuity
  import opened FlushOrder
  import opened GaugeFlag
  import G = GaugeOrder

  /** What anyone can see of a tenant's accounting. */
  predicate LooksLike(s: Sys, t: Sys) {
    && s.ledger == t.ledger
    && s.wf.processed == t.wf.processed && s.wf.pendingGauge == t.wf.pendingGauge && s.wf.exceeded == t.wf.exceeded
    && s.wf.lastAck == t.wf.lastAck && s.wf.flushSeqNo == t.wf.flushSeqNo
  }

  /** Whatever happens next, it looks the same from both states. */
  ghost predicate SameFutures(s: Sys, t: Sys) {
    forall es :: LooksLike(Exec(s, es), Exec(t, es))
  }

  // ---------------------------------------------------------------------------------------------
  // States that differ in what nobody sees
  // ---------------------------------------------------------------------------------------------

  /** The same but for the flush interval, and for handlers of credits in `lost` that only `s` has. */
  ghost predicate Alike(s: Sys, t: Sys, lost: set<nat>) {
    && t == s.(wf := s.wf.(interval := t.wf.interval), waiting := t.waiting)
    && t.waiting <= s.waiting && s.waiting - t.waiting <= lost
  }

  predicate IsCreditEvent(e: Event) {
    e.CreditStart? || e.DeliverCredit? || e.CreditComplete? || e.CreditFail?
  }

  lemma {:induction false} AlikeCreditEvent(s: Sys, t: Sys, lost: set<nat>, e: Event)
    requires Alike(s, t, lost) && IsCreditEvent(e)
    requires e.CreditComplete? ==> e.credit !in lost || e.credit !in s.acked
    ensures Alike(Next(s, e), Next(t, e), lost)
  {
  }

  /** The flush interval decides when events happen, never what they do. */
  lemma {:induction false} AlikeOtherEvent(s: Sys, t: Sys, lost: set<nat>, e: Event)
    requires Alike(s, t, lost) && !IsCreditEvent(e)
    ensures Alike(Next(s, e), Next(t, e), lost)
  {
  }

  // ---------------------------------------------------------------------------------------------
  // Credits that are never acknowledged
  // ---------------------------------------------------------------------------------------------

  /** The credit has the first allocation's ID and amount, so the ledger's answer cannot be classified. */
  predicate NeverAcknowledged(s: Sys, n: nat)
    requires n in s.credits
  {
    ClashesWithInitial(s, n) && s.config.initial[s.credits[n].resource] == s.credits[n].amount
  }

  /** No credit ever fails on the ledger, and only classifiable answers were acknowledged. */
  ghost predicate CreditsAnswered(s: Sys) {
    && (forall id :: id in s.ledger.failed ==> !id.AllocationId?)
    && (forall n :: n in s.acked && n in s.credits ==> !NeverAcknowledged(s, n))
  }

  /** What the ledger answers to a credit. */
  lemma {:induction false} CreditAnswer(s: Sys, n: nat)
    requires Numbered(s) && Booked(s) && n in s.credits && forall id :: id in s.ledger.failed ==> !id.AllocationId?
    ensures Classifiable(Apply(s.ledger, CreditTransfer(s.config, n, s.credits[n])).outcome)
            <==> !NeverAcknowledged(s, n)
  {
    var t := CreditTransfer(s.config, n, s.credits[n]);
    CreditIssued(s.config, s.inputs, s.credits, n);
    assert t in [t];
    GenuineHasAccounts(s, t);
    if t.id in s.ledger.transfers {
      assert Genuine(s.config, s.inputs, s.credits, s.ledger.transfers[t.id]);
    }
    if NeverAcknowledged(s, n) {
      assert s.ledger.transfers[t.id] == InitialTransfer(s.config, t.id.ledger);
    }
  }

  lemma {:induction false} ApplyFailsNoCredit(l: State, t: Transfer)
    requires (forall id :: id in l.failed ==> !id.AllocationId?)
    requires t.id.AllocationId? ==>
               t.debit.Operator? && t.kind.Posted? && t.debit in l.accounts && t.credit in l.accounts
    ensures forall id :: id in Apply(l, t).state.failed ==> !id.AllocationId?
  {
  }

  lemma {:induction false} RunFailsNoCredit(s: Sys, ts: seq<Transfer>)
    requires Booked(s) && AllIssued(s.config, s.inputs, s.credits, ts)
    requires forall id :: id in s.ledger.failed ==> !id.AllocationId?
    ensures forall id :: id in Run(s.ledger, ts).failed ==> !id.AllocationId?
    decreases |ts|
  {
    if ts != [] {
      var zs, z := ts[..|ts| - 1], ts[|ts| - 1];
      RunFailsNoCredit(s, zs);
      RunExtends(s.ledger, zs);
      assert z in ts;
      GenuineHasAccounts(s, z);
      ApplyFailsNoCredit(Run(s.ledger, zs), z);
    }
  }

  lemma {:induction false} FlushDeliveryAnswered(s: Sys, e: Event)
    requires Numbered(s) && Booked(s) && CreditsAnswered(s) && Enabled(s, e) && (e.DeliverUsage? || e.DeliverGauge?)
    ensures CreditsAnswered(Next(s, e))
  {
    match e {
      case DeliverUsage(n) =>
        UsageIssued(s.config, s.inputs, s.credits, n);
        RunFailsNoCredit(s, UsageRequest(s.inputs[n]));
      case DeliverGauge(reply, o) =>
        GaugeIssued(s.config, s.inputs, s.credits, reply.flush, o);
        RunFailsNoCredit(s, GaugeRequest(s.inputs[reply.flush], o));
    }
  }

  lemma {:induction false} CreditDeliveryAnswered(s: Sys, n: nat)
    requires Numbered(s) && Booked(s) && CreditsAnswered(s) && n in s.credits
    ensures CreditsAnswered(SendCredit(s, n))
  {
    CreditIssued(s.config, s.inputs, s.credits, n);
    RunFailsNoCredit(s, [CreditTransfer(s.config, n, s.credits[n])]);
    CreditAnswer(s, n);
  }

  lemma {:induction false} OtherEventAnswered(s: Sys, e: Event)
    requires Numbered(s) && Booked(s) && Started(s) && CreditsAnswered(s) && !e.DeliverUsage? && !e.DeliverGauge?
    ensures CreditsAnswered(Next(s, e))
  {
    if e.DeliverCredit? && Enabled(s, e) {
      CreditDeliveryAnswered(s, e.credit);
    } else if e.DeliverInitial? {
      InitialIssued(s.config, s.inputs, s.credits);
      RunFailsNoCredit(s, InitialRequest(s.config, |AllResources|));
    }
  }

  lemma {:induction false} CreditsAnsweredNext(s: Sys, e: Event)
    requires Inv(s) && CreditsAnswered(s)
    ensures CreditsAnswered(Next(s, e))
  {
    if !Enabled(s, e) {
    } else if e.DeliverUsage? || e.DeliverGauge? {
      FlushDeliveryAnswered(s, e);
    } else {
      OtherEventAnswered(s, e);
    }
  }

  lemma {:induction false} ExecCreditsAnswered(s: Sys, es: seq<Event>)
    requires Inv(s) && CreditsAnswered(s)
    ensures CreditsAnswered(Exec(s, es))
    decreases |es|
  {
    if es != [] {
      ExecCreditsAnswered(s, es[..|es| - 1]);
      ExecContinues(s, es[..|es| - 1]);
      CreditsAnsweredNext(Exec(s, es[..|es| - 1]), es[|es| - 1]);
    }
  }

  // ---------------------------------------------------------------------------------------------
  // A restart that nobody notices
  // ---------------------------------------------------------------------------------------------

  /** As long as what is lost cannot be acknowledged, the two states stay alike. */
  lemma {:induction false} StayAlike(s: Sys, t: Sys, lost: set<nat>, es: seq<Event>)
    requires Inv(s) && CreditsAnswered(s) && Alike(s, t, lost)
    requires forall n :: n in lost ==> n in s.credits && NeverAcknowledged(s, n)
    ensures Alike(Exec(s, es), Exec(t, es), lost)
    decreases |es|
  {
    if es != [] {
      var zs, e := es[..|es| - 1], es[|es| - 1];
      StayAlike(s, t, lost, zs);
      ExecContinues(s, zs);
      ExecCreditsAnswered(s, zs);
      if IsCreditEvent(e) {
        LostIsUnacknowledged(s, Exec(s, zs), lost);
        AlikeCreditEvent(Exec(s, zs), Exec(t, zs), lost, e);
      } else {
        AlikeOtherEvent(Exec(s, zs), Exec(t, zs), lost, e);
      }
    }
  }

  lemma {:induction false} LostIsUnacknowledged(s: Sys, s': Sys, lost: set<nat>)
    requires Continues(s, s') && CreditsAnswered(s')
    requires forall n :: n in lost ==> n in s.credits && NeverAcknowledged(s, n)
    ensures lost !! s'.acked
  {
    forall n | n in lost ensures n !in s'.acked {
      assert n in s.credits && NeverAcknowledged(s, n);
    }
  }

  // ---------------------------------------------------------------------------------------------
  // A flush of one new cluster
  // ---------------------------------------------------------------------------------------------

  predicate Mentions(id: TransferId, c: Uuid) {
    !id.AllocationId? && id.cluster == c
  }

  /** Nothing was ever heard of the cluster. */
  ghost predicate Unheard(s: Sys, c: Uuid) {
    && c !in s.wf.processed && c !in s.wf.pendingGauge
    && forall id :: id in s.ledger.transfers || id in s.ledger.failed ==> !Mentions(id, c)
  }

  lemma {:induction false} UnusedUuid(used: set<Uuid>) returns (n: nat)
    ensures forall c :: c in used ==> |c.bytes| < n
    decreases |used|
  {
    if used == {} {
      n := 0;
    } else {
      var d :| d in used;
      n := UnusedUuid(used - {d});
      n := if n > |d.bytes| then n else |d.bytes| + 1;
    }
  }

  function ClusterIn(id: TransferId): Uuid {
    if id.AllocationId? then id.tenant else id.cluster
  }

  /** Identifiers are byte strings, so there is always one that is longer than all those in use. */
  lemma {:induction false} SomeUnheard(s: Sys) returns (c: Uuid)
    ensures Unheard(s, c)
  {
    var ids := s.ledger.transfers.Keys + s.ledger.failed;
    var used := s.wf.processed.Keys + s.wf.pendingGauge.Keys + set id | id in ids :: ClusterIn(id);
    var n := UnusedUuid(used);
    c := Uuid(seq(n, _ => 0));
    assert c !in used;
    forall id | id in s.ledger.transfers || id in s.ledger.failed ensures !Mentions(id, c) {
      assert id in ids && ClusterIn(id) in used;
    }
  }

  /** A heartbeat that asks for one unit of the resource, and for nothing else. */
  function One(c: Uuid, r: Resource): Heartbeat {
    Heartbeat(c, 1, if r.CpuHours? then 1 else 0, if r.MemoryGBHours? then 1 else 0, if r.ActiveNodes? then 1 else 0, 0)
  }

  lemma {:induction false} UsageOfOne(tenant: Uuid, c: Uuid, r: Resource)
    ensures UsageBatch(tenant, [One(c, r)]) == if r.IsGauge() then [] else [UsageTransfer(tenant, One(c, r), r)]
  {
    var hb := One(c, r);
    assert [hb][..0] == [] && UsageBatch(tenant, []) == [];
    assert UsageOf(tenant, hb, 0) == [];
    assert UsageOf(tenant, hb, 1) == if r.CpuHours? then [UsageTransfer(tenant, hb, CpuHours)] else [];
    assert UsageOf(tenant, hb, 2) ==
           UsageOf(tenant, hb, 1) + if r.MemoryGBHours? then [UsageTransfer(tenant, hb, MemoryGBHours)] else [];
    assert UsageOf(tenant, hb, 3) == UsageOf(tenant, hb, 2);
  }

  /** What the wallet has left. */
  function Room(l: State, w: Account): int
    requires w in l.accounts
  {
    l.accounts[w].creditsPosted - l.accounts[w].debitsPosted - l.accounts[w].debitsPending
  }

  /** The one charge is accepted and uses up one credit, or it is refused. */
  lemma {:induction false} OneChargeIsAnswered(l: State, tenant: Uuid, c: Uuid, r: Resource)
    requires Valid(l) && !r.IsGauge() && Wallet(tenant, r) in l.accounts && Sink(r) in l.accounts
    requires UsageId(c, 1, r) !in l.transfers && UsageId(c, 1, r) !in l.failed
    ensures var t, w := UsageTransfer(tenant, One(c, r), r), Wallet(tenant, r);
            var k := Run(l, [t]);
            && Outcomes(l, [t]) == [Apply(l, t).outcome] && w in k.accounts
            && if Room(l, w) > 0 then Apply(l, t).outcome == Ok && Room(k, w) == Room(l, w) - 1
               else Apply(l, t).outcome == ExceedsCredits
  {
    var t := UsageTransfer(tenant, One(c, r), r);
    assert [t][..0] == [];
    assert Run(l, [t]) == Apply(l, t).state;
  }

  // ---------------------------------------------------------------------------------------------
  // A waiting flush runs to its end
  // ---------------------------------------------------------------------------------------------

  lemma {:induction false} EnabledGaugeIsSent(s: Sys, reply: UsageReply, o: seq<Uuid>)
    requires reply in s.usageReplies && reply.flush in s.inputs && KnowsClusters(s.inputs[reply.flush], o)
    requires IsOrder(o, Latest(s.inputs[reply.flush].heartbeats).Keys)
    ensures Next(s, DeliverGauge(reply, o)) == SendGauge(s, reply, o)
  {
  }

  lemma {:induction false} ReportedFlushCompletes(s: Sys, reply: UsageReply, o: seq<Uuid>)
    requires s.flushing == Some(reply.flush) && reply.flush in s.inputs && KnowsClusters(s.inputs[reply.flush], o)
    requires AllTolerated(GaugeRequest(s.inputs[reply.flush], o),
                          Outcomes(s.ledger, GaugeRequest(s.inputs[reply.flush], o)))
    ensures var input := s.inputs[reply.flush];
            var res := Report(input, o, reply.perResource, Outcomes(s.ledger, GaugeRequest(input, o)));
            Next(SendGauge(s, reply, o), FlushComplete(res)) == CompleteFlush(SendGauge(s, reply, o), res)
  {
    var input := s.inputs[reply.flush];
    var res := Report(input, o, reply.perResource, Outcomes(s.ledger, GaugeRequest(input, o)));
    assert FlushReport(reply.flush, res) in SendGauge(s, reply, o).reports;
    ReportIsApplied(SendGauge(s, reply, o), res);
  }

  lemma {:induction false} ReportIsApplied(s: Sys, res: BatchResult)
    requires s.flushing.Some? && FlushReport(s.flushing.value, res) in s.reports
    ensures Next(s, FlushComplete(res)) == CompleteFlush(s, res)
  {
  }

  ghost function ReplyTo(s: Sys, n: nat): UsageReply
    requires n in s.inputs
  {
    var ts := UsageRequest(s.inputs[n]);
    UsageReply(n, PerResource(ts, Outcomes(s.ledger, ts)))
  }

  ghost function ReportOn(s: Sys, reply: UsageReply, o: seq<Uuid>): BatchResult
    requires reply.flush in s.inputs && KnowsClusters(s.inputs[reply.flush], o)
  {
    var input := s.inputs[reply.flush];
    Report(input, o, reply.perResource, Outcomes(s.ledger, GaugeRequest(input, o)))
  }

  /** Both requests are delivered, and the report is applied. */
  ghost function FlushSteps(s: Sys, n: nat, o: seq<Uuid>): seq<Event>
    requires n in s.inputs && KnowsClusters(s.inputs[n], o)
  {
    var reply := ReplyTo(s, n);
    [DeliverUsage(n)] + [DeliverGauge(reply, o)] + [FlushComplete(ReportOn(SendUsage(s, n), reply, o))]
  }

  ghost function AfterFlush(s: Sys, n: nat, o: seq<Uuid>): Sys
    requires n in s.inputs && KnowsClusters(s.inputs[n], o) && s.flushing.Some?
  {
    var s1, reply := SendUsage(s, n), ReplyTo(s, n);
    CompleteFlush(SendGauge(s1, reply, o), ReportOn(s1, reply, o))
  }

  lemma {:induction false} ExecThree(s: Sys, e: Event, f: Event, g: Event)
    ensures Exec(s, [e] + [f] + [g]) == Next(Next(Next(s, e), f), g)
  {
    assert Exec(s, []) == s && [] + [e] == [e];
    ExecSnoc(s, [], e);
    ExecSnoc(s, [e], f);
    ExecSnoc(s, [e] + [f], g);
  }

  lemma {:induction false} UsageIsAnswered(s: Sys, n: nat)
    requires n in s.inputs && AllClassifiable(Outcomes(s.ledger, UsageRequest(s.inputs[n])))
    ensures ReplyTo(s, n) in SendUsage(s, n).usageReplies
  {
  }

  lemma {:induction false} GaugeThenComplete(s: Sys, reply: UsageReply, o: seq<Uuid>)
    requires Inv(s) && s.flushing == Some(reply.flush) && reply in s.usageReplies && reply.flush in s.inputs
    requires IsIteration(s.inputs[reply.flush], o) && Untouched(s, reply.flush)
    ensures var res := ReportOn(s, reply, o);
            Next(Next(s, DeliverGauge(reply, o)), FlushComplete(res)) == CompleteFlush(SendGauge(s, reply, o), res)
  {
    UntouchedIsTolerated(s, reply.flush, o);
    EnabledGaugeIsSent(s, reply, o);
    ReportedFlushCompletes(s, reply, o);
  }

  lemma {:induction false} FlushRuns(s: Sys, n: nat, o: seq<Uuid>)
    requires Inv(s) && s.flushing == Some(n) && n in s.inputs && IsIteration(s.inputs[n], o)
    requires AllClassifiable(Outcomes(s.ledger, UsageRequest(s.inputs[n]))) && Untouched(SendUsage(s, n), n)
    ensures Exec(s, FlushSteps(s, n, o)) == AfterFlush(s, n, o)
  {
    var s1, reply := SendUsage(s, n), ReplyTo(s, n);
    ExecThree(s, DeliverUsage(n), DeliverGauge(reply, o), FlushComplete(ReportOn(s1, reply, o)));
    DeliverUsageSends(s, n);
    UsageIsAnswered(s, n);
    DeliverUsageInv(s, n);
    GaugeThenComplete(s1, reply, o);
  }

  lemma {:induction false} LatestOfOne(a: Heartbeat)
    ensures Latest([a]) == map[a.cluster := a]
  {
    assert [a][..0] == [];
    assert Latest([]) == map[];
  }

  /** One heartbeat arrives, and its flush starts. */
  ghost function Begin(c: Uuid, r: Resource): seq<Event> {
    Signals([One(c, r)]) + [FlushStart]
  }

  /** The flush of one new heartbeat has just started. */
  ghost predicate OneIsWaiting(s: Sys, n: nat, c: Uuid, r: Resource) {
    && Inv(s) && s.flushing == Some(n) && n in s.inputs && s.inputs[n].heartbeats == [One(c, r)]
    && c !in s.inputs[n].pendingGauge
    && forall id :: id in s.ledger.transfers || id in s.ledger.failed ==> !Mentions(id, c)
  }

  lemma {:induction false} OneBegins(s: Sys, s': Sys, c: Uuid, r: Resource)
    requires Unheard(s, c) && Inv(s')
    requires s' == StartFlush(s.(wf := s.wf.(batch := [One(c, r)]), received := s.received + [One(c, r)]))
    ensures OneIsWaiting(s', s.wf.flushSeqNo + 1, c, r) && s'.ledger == s.ledger && s'.config == s.config
  {
  }

  lemma {:induction false} OneIsNew(s: Sys, c: Uuid, r: Resource)
    requires s.flushing.None? && s.wf.batch == [] && c !in s.wf.processed
    ensures Exec(s, Begin(c, r)) ==
            StartFlush(s.(wf := s.wf.(batch := [One(c, r)]), received := s.received + [One(c, r)]))
  {
    FlushOfNew(s, [One(c, r)]);
  }

  lemma {:induction false} OneStarts(s: Sys, c: Uuid, r: Resource)
    requires Inv(s) && s.flushing.None? && s.wf.batch == [] && Unheard(s, c)
    ensures var s' := Exec(s, Begin(c, r));
            && OneIsWaiting(s', s.wf.flushSeqNo + 1, c, r)
            && s'.ledger == s.ledger && s'.config == s.config
  {
    ExecContinues(s, Begin(c, r));
    OneIsNew(s, c, r);
    OneBegins(s, Exec(s, Begin(c, r)), c, r);
  }

  lemma {:induction false} UnmentionedStays(l: State, tenant: Uuid, c: Uuid, r: Resource, id: TransferId)
    requires Valid(l) && !id.UsageId? && id !in l.transfers && id !in l.failed
    ensures var k := Run(l, UsageBatch(tenant, [One(c, r)])); id !in k.transfers && id !in k.failed
  {
    var ts := UsageBatch(tenant, [One(c, r)]);
    forall t | t in ts ensures t.id != id {
      UsageBatchMembers(tenant, [One(c, r)], t);
    }
    OthersKeepId(l, ts, id);
  }

  lemma {:induction false} OneIsUntouched(s: Sys, n: nat, c: Uuid, r: Resource)
    requires n in s.inputs && s.inputs[n].heartbeats == [One(c, r)] && c !in s.inputs[n].pendingGauge && Booked(s)
    requires forall id :: id in s.ledger.transfers || id in s.ledger.failed ==> !Mentions(id, c)
    ensures Untouched(SendUsage(s, n), n)
  {
    LatestOfOne(One(c, r));
    UnmentionedStays(s.ledger, s.inputs[n].tenant, c, r, Pid(s.config.tenant, n, c));
    UnmentionedStays(s.ledger, s.inputs[n].tenant, c, r, Vid(s.config.tenant, n, c));
  }

  lemma {:induction false} UpdateOfOne(cfg: Config, n: nat, input: BatchInput, c: Uuid, r: Resource)
    requires Shaped(cfg, n, input) && input.heartbeats == [One(c, r)] && c !in input.pendingGauge
    ensures IsIteration(input, [c])
    ensures && GaugeUpdates(input, [c]) == [UpdateFor(input, c)] && UpdateFor(input, c).oldId.None?
            && UpdateFor(input, c).newAmount == if r.IsGauge() then 1 else 0
  {
    LatestOfOne(One(c, r));
    ShapedIsComplete(cfg, n, input);
    UpdateParts(cfg, n, input, c);
  }

  /** The flush flags the resource, or it leaves one credit less. */
  ghost predicate Closer(s: Sys, s': Sys, r: Resource)
    requires WalletOf(s, r) in s.ledger.accounts
  {
    || r in s'.wf.exceeded
    || (WalletOf(s, r) in s'.ledger.accounts
        && Room(s'.ledger, WalletOf(s, r)) < Room(s.ledger, WalletOf(s, r)))
  }

  lemma {:induction false} ResultOfOne(t: Transfer, x: Outcome)
    ensures PerResource([t], [x]) == map[t.id.ledger := Classify(x)]
  {
    assert [t][..0] == [] && [x][..0] == [];
    assert PerResource([], []) == map[];
  }

  lemma {:induction false} NoUpdate(u: GaugeUpdate)
    requires u.oldId.None? && u.newAmount == 0
    ensures GaugeBatch([u]) == []
  {
    assert [u][..0] == [] && GaugeBatch([]) == [];
  }

  /** A flush of one new cluster, over the parts of the state that it depends on. */
  ghost predicate OneIn(cfg: Config, l: State, n: nat, input: BatchInput, c: Uuid, r: Resource) {
    && Valid(l) && Shaped(cfg, n, input) && input.heartbeats == [One(c, r)] && c !in input.pendingGauge
    && Wallet(cfg.tenant, r) in l.accounts && Sink(r) in l.accounts
    && forall id :: id in l.transfers || id in l.failed ==> !Mentions(id, c)
  }

  lemma {:induction false} UsageRequestOfOne(cfg: Config, l: State, n: nat, input: BatchInput, c: Uuid, r: Resource)
    requires OneIn(cfg, l, n, input, c, r) && !r.IsGauge()
    ensures var t, w := UsageTransfer(cfg.tenant, One(c, r), r), Wallet(cfg.tenant, r);
            var x, k := Apply(l, t).outcome, Run(l, [t]);
            && UsageRequest(input) == [t] && Outcomes(l, [t]) == [x] && PerResource([t], [x]) == map[r := Classify(x)]
            && w in k.accounts && (x == ExceedsCredits || (x == Ok && Room(k, w) < Room(l, w)))
  {
    var t := UsageTransfer(cfg.tenant, One(c, r), r);
    UsageOfOne(cfg.tenant, c, r);
    OneChargeIsAnswered(l, cfg.tenant, c, r);
    ResultOfOne(t, Apply(l, t).outcome);
  }

  lemma {:induction false} FlagOfUsage(exceeded: set<Resource>, input: BatchInput, c: Uuid, r: Resource)
    requires KnowsClusters(input, [c]) && GaugeRequest(input, [c]) == [] && !r.IsGauge()
    ensures r in ExceededAfter(exceeded, Report(input, [c], map[r := Classify(ExceedsCredits)], []).perResource)
  {
    ReportedGaugeEntry(input, [c], map[r := Classify(ExceedsCredits)], []);
  }

  lemma {:induction false} AfterFlushParts(s: Sys, n: nat, o: seq<Uuid>)
    requires n in s.inputs && KnowsClusters(s.inputs[n], o) && s.flushing.Some?
    ensures var input := s.inputs[n];
            var us, gs := UsageRequest(input), GaugeRequest(input, o);
            var l := Run(s.ledger, us);
            var per := PerResource(us, Outcomes(s.ledger, us));
            && AfterFlush(s, n, o).ledger == Run(l, gs)
            && AfterFlush(s, n, o).wf.exceeded ==
               ExceededAfter(s.wf.exceeded, Report(input, o, per, Outcomes(l, gs)).perResource)
  {
  }

  lemma {:induction false} OneIsIn(s: Sys, n: nat, c: Uuid, r: Resource)
    requires OneIsWaiting(s, n, c, r)
    ensures OneIn(s.config, s.ledger, n, s.inputs[n], c, r)
    ensures IsIteration(s.inputs[n], [c])
  {
    EveryResource(r);
    UpdateOfOne(s.config, n, s.inputs[n], c, r);
  }

  lemma {:induction false} NoGauge(cfg: Config, l: State, n: nat, input: BatchInput, c: Uuid, r: Resource)
    requires OneIn(cfg, l, n, input, c, r) && !r.IsGauge() && IsIteration(input, [c])
    ensures GaugeRequest(input, [c]) == [] && Outcomes(l, []) == []
  {
    UpdateOfOne(cfg, n, input, c, r);
    NoUpdate(UpdateFor(input, c));
  }

  lemma {:induction false} UsageFlush(s: Sys, n: nat, c: Uuid, r: Resource)
    requires n in s.inputs && s.flushing.Some? && OneIn(s.config, s.ledger, n, s.inputs[n], c, r) && !r.IsGauge()
    requires IsIteration(s.inputs[n], [c])
    ensures AllClassifiable(Outcomes(s.ledger, UsageRequest(s.inputs[n])))
    ensures Closer(s, AfterFlush(s, n, [c]), r)
  {
    var input := s.inputs[n];
    UsageRequestOfOne(s.config, s.ledger, n, input, c, r);
    NoGauge(s.config, s.ledger, n, input, c, r);
    AfterFlushParts(s, n, [c]);
    FlagOfUsage(s.wf.exceeded, input, c, r);
  }

  lemma {:induction false} OneReservation(l: State, tenant: Uuid, u: GaugeUpdate)
    requires G.ReadyOne(l, tenant, u) && u.oldId.None? && u.newAmount == 1
    ensures var w := G.GaugeWallet(tenant);
            var k := Run(l, GaugeBatch([u]));
            && (LastFits(l, tenant, [u]) <==> Room(l, w) > 0)
            && w in k.accounts && (Room(l, w) > 0 ==> Room(k, w) == Room(l, w) - 1)
  {
    assert [u][..0] == [];
    assert Reserved(l, tenant, []) == l.accounts[G.GaugeWallet(tenant)].debitsPending;
    assert G.OrderOfPart([u], {u});
    WalkReserves(l, tenant, {u}, [u]);
    G.WalkReady(l, tenant, {u}, [u]);
  }

  lemma {:induction false} NoUsage(cfg: Config, l: State, n: nat, input: BatchInput, c: Uuid)
    requires OneIn(cfg, l, n, input, c, ActiveNodes)
    ensures UsageRequest(input) == [] && Run(l, []) == l && Outcomes(l, []) == [] && PerResource([], []) == map[]
  {
    UsageOfOne(cfg.tenant, c, ActiveNodes);
  }

  lemma {:induction false} UpdatesOfOne(input: BatchInput, c: Uuid)
    requires Complete(input) && Latest(input.heartbeats).Keys == {c}
    ensures c in Latest(input.heartbeats) && Updates(input) == {UpdateFor(input, c)}
  {
  }

  lemma {:induction false} OneIsNotThereYet(s: Sys, n: nat, c: Uuid)
    requires n in s.inputs && s.inputs[n].heartbeats == [One(c, ActiveNodes)] && c !in s.inputs[n].pendingGauge
    requires forall id :: id in s.ledger.transfers || id in s.ledger.failed ==> !Mentions(id, c)
    ensures Latest(s.inputs[n].heartbeats).Keys == {c} && Untouched(s, n)
  {
    LatestOfOne(One(c, ActiveNodes));
  }

  lemma {:induction false} GaugeOutcome(s: Sys, n: nat, c: Uuid)
    requires OneIsWaiting(s, n, c, ActiveNodes) && IsIteration(s.inputs[n], [c])
    requires WalletOf(s, ActiveNodes) in s.ledger.accounts
    ensures var input, w := s.inputs[n], WalletOf(s, ActiveNodes);
            var k := Run(s.ledger, GaugeRequest(input, [c]));
            FlagAfter(s, input, map[], [c]) || (w in k.accounts && Room(k, w) < Room(s.ledger, w))
  {
    var input := s.inputs[n];
    OneIsNotThereYet(s, n, c);
    UpdateOfOne(s.config, n, input, c, ActiveNodes);
    FlushIsReady(s, n);
    UpdatesOfOne(input, c);
    OneReservation(s.ledger, s.config.tenant, UpdateFor(input, c));
    FlagIffLastRefused(s, n, map[], [c]);
  }

  lemma {:induction false} GaugeFlush(s: Sys, n: nat, c: Uuid)
    requires OneIsWaiting(s, n, c, ActiveNodes) && OneIn(s.config, s.ledger, n, s.inputs[n], c, ActiveNodes)
    requires IsIteration(s.inputs[n], [c])
    ensures AllClassifiable(Outcomes(s.ledger, UsageRequest(s.inputs[n])))
    ensures Closer(s, AfterFlush(s, n, [c]), ActiveNodes)
  {
    NoUsage(s.config, s.ledger, n, s.inputs[n], c);
    GaugeOutcome(s, n, c);
    AfterFlushParts(s, n, [c]);
  }

  // ---------------------------------------------------------------------------------------------
  // From any idle state, every resource can come to be flagged
  // ---------------------------------------------------------------------------------------------

  predicate IsFlushEvent(e: Event) {
    e.HeartbeatSignal? || e.FlushStart? || e.DeliverUsage? || e.DeliverGauge? || e.FlushComplete?
  }

  ghost predicate OnlyFlushEvents(es: seq<Event>) {
    forall e :: e in es ==> IsFlushEvent(e)
  }

  ghost predicate Idle(s: Sys) {
    Inv(s) && s.flushing.None? && s.wf.batch == []
  }

  lemma {:induction false} OneIsAnswered(s: Sys, n: nat, c: Uuid, r: Resource)
    requires OneIsWaiting(s, n, c, r)
    ensures IsIteration(s.inputs[n], [c]) && AllClassifiable(Outcomes(s.ledger, UsageRequest(s.inputs[n])))
    ensures WalletOf(s, r) in s.ledger.accounts && Closer(s, AfterFlush(s, n, [c]), r)
  {
    OneIsIn(s, n, c, r);
    if r.IsGauge() {
      GaugeFlush(s, n, c);
    } else {
      UsageFlush(s, n, c, r);
    }
  }

  lemma {:induction false} OneRuns(s: Sys, n: nat, c: Uuid, r: Resource)
    requires OneIsWaiting(s, n, c, r)
    ensures IsIteration(s.inputs[n], [c])
    ensures var s' := Exec(s, FlushSteps(s, n, [c]));
            && s'.flushing.None? && s'.wf.batch == []
            && WalletOf(s, r) in s.ledger.accounts && Closer(s, s', r)
  {
    OneIsAnswered(s, n, c, r);
    OneIsUntouched(s, n, c, r);
    FlushRuns(s, n, [c]);
  }

  lemma {:induction false} FlushEventsOnly(c: Uuid, r: Resource, s: Sys, n: nat, o: seq<Uuid>)
    requires n in s.inputs && KnowsClusters(s.inputs[n], o)
    ensures OnlyFlushEvents(Begin(c, r) + FlushSteps(s, n, o))
  {
    assert OnlyFlushEvents(FlushSteps(s, n, o));
    assert OnlyFlushEvents(Begin(c, r)) by {
      assert Signals([One(c, r)]) == [HeartbeatSignal(One(c, r))];
    }
  }

  lemma {:induction false} StillCloser(s: Sys, s1: Sys, s': Sys, r: Resource)
    requires s1.ledger == s.ledger && s1.config == s.config
    requires WalletOf(s1, r) in s1.ledger.accounts && Closer(s1, s', r)
    ensures WalletOf(s, r) in s.ledger.accounts && Closer(s, s', r)
  {
  }

  lemma {:induction false} FlushOfOne(s: Sys, c: Uuid, r: Resource) returns (es: seq<Event>)
    requires Idle(s) && Unheard(s, c)
    ensures OnlyFlushEvents(es) && Idle(Exec(s, es)) && WalletOf(s, r) in s.ledger.accounts && Closer(s, Exec(s, es), r)
  {
    var n := s.wf.flushSeqNo + 1;
    var s1 := Exec(s, Begin(c, r));
    OneStarts(s, c, r);
    OneRuns(s1, n, c, r);
    var steps := FlushSteps(s1, n, [c]);
    FlushEventsOnly(c, r, s1, n, [c]);
    StillCloser(s, s1, Exec(s1, steps), r);
    ExecConcat(s, Begin(c, r), steps);
    es := Begin(c, r) + steps;
    ExecContinues(s, es);
  }

  lemma {:induction false} SomeRunFlags(s: Sys, r: Resource, room: nat) returns (es: seq<Event>)
    requires Idle(s) && WalletOf(s, r) in s.ledger.accounts && Room(s.ledger, WalletOf(s, r)) <= room
    ensures OnlyFlushEvents(es) && Idle(Exec(s, es)) && r in Exec(s, es).wf.exceeded
    decreases room
  {
    var c := SomeUnheard(s);
    es := FlushOfOne(s, c, r);
    var s' := Exec(s, es);
    if r !in s'.wf.exceeded {
      ExecContinues(s, es);
      assert WithinCredits(s'.ledger.accounts[WalletOf(s', r)]);
      var rest := SomeRunFlags(s', r, room - 1);
      ExecConcat(s, es, rest);
      es := es + rest;
    }
  }

  // ---------------------------------------------------------------------------------------------
  // A restart that somebody notices
  // ---------------------------------------------------------------------------------------------

  /** With a batch waiting, the next flush happens without the restart, and not with it. */
  lemma {:induction false} RestartLosesBatch(s: Sys)
    requires s.flushing.None? && s.wf.batch != []
    ensures !LooksLike(Exec(s, [FlushStart]), Exec(Restart(s), [FlushStart]))
  {
    assert [FlushStart][..0] == [];
    assert Exec(s, [FlushStart]) == Next(s, FlushStart);
    assert Exec(Restart(s), [FlushStart]) == Next(Restart(s), FlushStart);
  }

  lemma {:induction false} FlushEventKeepsHandlers(s: Sys, e: Event)
    requires IsFlushEvent(e)
    ensures Next(s, e).waiting == s.waiting && Next(s, e).credits == s.credits
  {
  }

  /** Flushes leave the handlers of waiting credits alone, and run alike with them and without. */
  lemma {:induction false} FlushesRunAlike(s: Sys, t: Sys, lost: set<nat>, es: seq<Event>)
    requires Alike(s, t, lost) && OnlyFlushEvents(es)
    ensures Alike(Exec(s, es), Exec(t, es), lost)
    ensures Exec(s, es).waiting == s.waiting && Exec(s, es).credits == s.credits && Exec(t, es).waiting == t.waiting
    decreases |es|
  {
    if es != [] {
      var zs, e := es[..|es| - 1], es[|es| - 1];
      assert e in es && forall f :: f in zs ==> f in es;
      FlushesRunAlike(s, t, lost, zs);
      FlushEventKeepsHandlers(Exec(s, zs), e);
      FlushEventKeepsHandlers(Exec(t, zs), e);
      AlikeOtherEvent(Exec(s, zs), Exec(t, zs), lost, e);
    }
  }

  /** The credit is delivered, and its handler confirms it if there is one. */
  function Confirm(n: nat): seq<Event> {
    [DeliverCredit(n)] + [CreditComplete(n)]
  }

  lemma {:induction false} ExecConfirm(s: Sys, n: nat)
    requires n in s.credits
    ensures var s1 := SendCredit(s, n);
            Exec(s, Confirm(n)) == if n in s1.waiting && n in s1.acked then CompleteCredit(s1, n) else s1
  {
    assert Exec(s, []) == s && [] + [DeliverCredit(n)] == [DeliverCredit(n)];
    ExecSnoc(s, [], DeliverCredit(n));
    ExecSnoc(s, [DeliverCredit(n)], CreditComplete(n));
  }

  /** A flagged resource whose waiting credit can be acknowledged: only with its handler is the flag cleared. */
  lemma {:induction false} HandlerClearsFlag(s: Sys, t: Sys, n: nat)
    requires Numbered(s) && Booked(s) && CreditsAnswered(s) && n in s.waiting && n in s.credits
    requires !NeverAcknowledged(s, n) && s.credits[n].resource in s.wf.exceeded
    requires Alike(s, t, s.waiting) && n !in t.waiting
    ensures !LooksLike(Exec(s, Confirm(n)), Exec(t, Confirm(n)))
  {
    CreditAnswer(s, n);
    ExecConfirm(s, n);
    ExecConfirm(t, n);
  }

  lemma {:induction false} SeenOnceFlagged(s: Sys, n: nat, es: seq<Event>)
    requires Idle(s) && CreditsAnswered(s) && n in s.waiting && n in s.credits && !NeverAcknowledged(s, n)
    requires OnlyFlushEvents(es) && s.credits[n].resource in Exec(s, es).wf.exceeded
    ensures !LooksLike(Exec(Exec(s, es), Confirm(n)), Exec(Exec(Restart(s), es), Confirm(n)))
  {
    FlushesRunAlike(s, Restart(s), s.waiting, es);
    ExecContinues(s, es);
    ExecCreditsAnswered(s, es);
    HandlerClearsFlag(Exec(s, es), Exec(Restart(s), es), n);
  }

  lemma {:induction false} RestartLosesHandler(s: Sys, n: nat)
    requires Idle(s) && CreditsAnswered(s) && n in s.waiting && n in s.credits && !NeverAcknowledged(s, n)
    ensures !SameFutures(s, Restart(s))
  {
    var r := s.credits[n].resource;
    WalletExists(s, r);
    assert WithinCredits(s.ledger.accounts[WalletOf(s, r)]);
    var es := SomeRunFlags(s, r, Room(s.ledger, WalletOf(s, r)));
    SeenOnceFlagged(s, n, es);
    ExecConcat(s, es, Confirm(n));
    ExecConcat(Restart(s), es, Confirm(n));
    assert !LooksLike(Exec(s, es + Confirm(n)), Exec(Restart(s), es + Confirm(n)));
  }

  lemma {:induction false} ReachedCreditsAnswered(cfg: Config, es: seq<Event>)
    ensures Inv(Exec(Init(cfg), es)) && CreditsAnswered(Exec(Init(cfg), es))
  {
    NothingBurntAtFirst(cfg);
    InitInv(cfg);
    ExecCreditsAnswered(Init(cfg), es);
    ExecInv(cfg, es);
  }

  lemma {:induction false} RestartIsInvisible(s: Sys)
    requires Idle(s) && CreditsAnswered(s) && forall n :: n in s.waiting ==> n in s.credits && NeverAcknowledged(s, n)
    ensures SameFutures(s, Restart(s))
  {
    assert Alike(s, Restart(s), s.waiting);
    forall es ensures LooksLike(Exec(s, es), Exec(Restart(s), es)) {
      StayAlike(s, Restart(s), s.waiting, es);
    }
  }

  /**
   * In any reached state with no flush waiting, a restart is invisible for every future exactly
   * when the batch is empty, that is, when the flush before it left nothing behind, and no credit
   * is waiting but such as can never be acknowledged.
   */
  lemma {:induction false} RestartIsInvisibleIff(cfg: Config, es: seq<Event>)
    requires Exec(Init(cfg), es).flushing.None?
    ensures var s := Exec(Init(cfg), es);
            SameFutures(s, Restart(s)) <==>
              s.wf.batch == [] && forall n :: n in s.waiting ==> n in s.credits && NeverAcknowledged(s, n)
  {
    var s := Exec(Init(cfg), es);
    ReachedCreditsAnswered(cfg, es);
    if s.wf.batch != [] {
      RestartLosesBatch(s);
    } else if n :| n in s.waiting && !(n in s.credits && NeverAcknowledged(s, n)) {
      RestartLosesHandler(s, n);
    } else {
      RestartIsInvisible(s);
    }
  }
}
