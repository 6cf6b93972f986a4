/** What holds in every state of every run of the protocol, and why each event keeps it. */
module Invariant {
  import opened Domain
  import opened TransferIds
  import opened Ledger
  import opened Transfers
  import opened Replies
  import opened Activities
  import opened Workflow
  import opened Protocol

  function Pid(tenant: Uuid, n: nat, c: Uuid): TransferId {
    GaugePendingId(tenant, n, c, ActiveNodes)
  }

  function Vid(tenant: Uuid, n: nat, c: Uuid): TransferId {
    GaugeVoidId(tenant, n, c, ActiveNodes)
  }

  function GaugeAmount(input: BatchInput, c: Uuid): nat
    requires c in Latest(input.heartbeats)
  {
    ToUint64(HeartbeatAmount(Latest(input.heartbeats)[c], ActiveNodes))
  }

  function Reservation(tenant: Uuid, n: nat, input: BatchInput, c: Uuid): Transfer
    requires c in Latest(input.heartbeats)
  {
    var hb := Latest(input.heartbeats)[c];
    Transfer(Pid(tenant, n, c), Wallet(tenant, ActiveNodes), Sink(ActiveNodes), GaugeAmount(input, c), Pending,
             hb.cluster, ToUint64(hb.timestampNs))
  }

  // ---------------------------------------------------------------------------------------------
  // Where the ledger's transfers come from
  // ---------------------------------------------------------------------------------------------

  ghost predicate FromHeartbeat(cfg: Config, inputs: map<nat, BatchInput>, t: Transfer) {
    exists n, hb :: n in inputs && hb in inputs[n].heartbeats && Billed(hb, t.id.ledger)
                    && t == UsageTransfer(cfg.tenant, hb, t.id.ledger)
  }

  predicate FromAllocation(cfg: Config, credits: map<nat, CreditRequest>, t: Transfer) {
    || (t.id.ledger in cfg.initial && t == InitialTransfer(cfg, t.id.ledger))
    || (t.id.seqNo in credits && t == CreditTransfer(cfg, t.id.seqNo, credits[t.id.seqNo]))
  }

  predicate FromReservation(cfg: Config, inputs: map<nat, BatchInput>, t: Transfer)
    requires t.id.GaugePendingId?
  {
    var n, c := t.id.seqNo, t.id.cluster;
    n in inputs && c in Latest(inputs[n].heartbeats) && t == Reservation(cfg.tenant, n, inputs[n], c) && t.amount > 0
  }

  predicate FromVoid(cfg: Config, inputs: map<nat, BatchInput>, t: Transfer)
    requires t.id.GaugeVoidId?
  {
    var n, c := t.id.seqNo, t.id.cluster;
    && n in inputs && c in Latest(inputs[n].heartbeats) && c in inputs[n].pendingGauge
    && t.id == Vid(cfg.tenant, n, c)
    && t.debit == Wallet(cfg.tenant, ActiveNodes) && t.credit == Sink(ActiveNodes)
    && t.kind == VoidPending(inputs[n].pendingGauge[c]) && t.userData128 == NO_UUID && t.userData64 == 0
  }

  /** The transfer belongs to a request that was issued. */
  ghost predicate Genuine(cfg: Config, inputs: map<nat, BatchInput>, credits: map<nat, CreditRequest>, t: Transfer) {
    match t.id
    case UsageId(_, _, _) => FromHeartbeat(cfg, inputs, t)
    case AllocationId(_, _, _) => FromAllocation(cfg, credits, t)
    case GaugePendingId(_, _, _, _) => FromReservation(cfg, inputs, t)
    case GaugeVoidId(_, _, _, _) => FromVoid(cfg, inputs, t)
  }

  ghost predicate AllGenuine(cfg: Config, inputs: map<nat, BatchInput>, credits: map<nat, CreditRequest>, l: State) {
    forall id :: id in l.transfers ==> Genuine(cfg, inputs, credits, l.transfers[id])
  }

  ghost predicate AllIssued(cfg: Config, inputs: map<nat, BatchInput>, credits: map<nat, CreditRequest>,
      ts: seq<Transfer>) {
    forall t :: t in ts ==> Genuine(cfg, inputs, credits, t)
  }

  lemma {:induction false} ApplyGenuine(cfg: Config, inputs: map<nat, BatchInput>, credits: map<nat, CreditRequest>,
      l: State, t: Transfer)
    requires AllGenuine(cfg, inputs, credits, l) && Genuine(cfg, inputs, credits, t)
    ensures AllGenuine(cfg, inputs, credits, Apply(l, t).state)
  {
    var l' := Apply(l, t).state;
    forall id | id in l'.transfers ensures Genuine(cfg, inputs, credits, l'.transfers[id]) {
      if id !in l.transfers {
        assert id == t.id;
        if t.kind.VoidPending? {
          assert t.id.GaugeVoidId?;
          assert l'.transfers[id] == t.(amount := l'.transfers[id].amount);
        } else {
          assert l'.transfers[id] == t;
        }
      } else {
        assert l'.transfers[id] == l.transfers[id];
      }
    }
  }

  lemma {:induction false} RunGenuine(cfg: Config, inputs: map<nat, BatchInput>, credits: map<nat, CreditRequest>,
      l: State, ts: seq<Transfer>)
    requires AllGenuine(cfg, inputs, credits, l) && AllIssued(cfg, inputs, credits, ts)
    ensures AllGenuine(cfg, inputs, credits, Run(l, ts))
    decreases |ts|
  {
    if ts != [] {
      RunGenuine(cfg, inputs, credits, l, ts[..|ts| - 1]);
      ApplyGenuine(cfg, inputs, credits, Run(l, ts[..|ts| - 1]), ts[|ts| - 1]);
    }
  }

  lemma {:induction false} GenuineGrows(cfg: Config, inputs: map<nat, BatchInput>, credits: map<nat, CreditRequest>,
      inputs': map<nat, BatchInput>, credits': map<nat, CreditRequest>, l: State)
    requires AllGenuine(cfg, inputs, credits, l)
    requires forall n :: n in inputs ==> n in inputs' && inputs'[n] == inputs[n]
    requires forall n :: n in credits ==> n in credits' && credits'[n] == credits[n]
    ensures AllGenuine(cfg, inputs', credits', l)
  {
    forall id | id in l.transfers ensures Genuine(cfg, inputs', credits', l.transfers[id]) {
      var t := l.transfers[id];
      assert Genuine(cfg, inputs, credits, t);
      match t.id {
        case UsageId(_, _, _) =>
          var n, hb :| n in inputs && hb in inputs[n].heartbeats && Billed(hb, t.id.ledger)
                       && t == UsageTransfer(cfg.tenant, hb, t.id.ledger);
          assert n in inputs' && hb in inputs'[n].heartbeats;
        case AllocationId(_, _, _) =>
        case GaugePendingId(_, _, _, _) =>
        case GaugeVoidId(_, _, _, _) =>
      }
    }
  }

  /** A flush's input carries IDs made from its own number. */
  ghost predicate Shaped(cfg: Config, n: nat, input: BatchInput) {
    && input.tenant == cfg.tenant
    && input.newPendingIds == PendingIds(cfg.tenant, n, input.heartbeats)
    && input.voidIds == VoidIds(cfg.tenant, n, input.heartbeats)
  }

  lemma {:induction false} UsageIssued(cfg: Config, inputs: map<nat, BatchInput>, credits: map<nat, CreditRequest>,
      n: nat)
    requires n in inputs && Shaped(cfg, n, inputs[n])
    ensures AllIssued(cfg, inputs, credits, UsageRequest(inputs[n]))
  {
    forall t | t in UsageRequest(inputs[n]) ensures Genuine(cfg, inputs, credits, t) {
      UsageBatchMembers(cfg.tenant, inputs[n].heartbeats, t);
      var hb, r :| hb in inputs[n].heartbeats && Billed(hb, r) && t == UsageTransfer(cfg.tenant, hb, r);
    }
  }

  lemma {:induction false} UpdateParts(cfg: Config, n: nat, input: BatchInput, c: Uuid)
    requires Shaped(cfg, n, input) && c in Latest(input.heartbeats) && c in input.newPendingIds && c in input.voidIds
    ensures var u := UpdateFor(input, c);
            && u.cluster == c && u.newId == Pid(cfg.tenant, n, c) && u.voidId == Vid(cfg.tenant, n, c)
            && u.newAmount == GaugeAmount(input, c)
            && ReserveTransfer(u) == Reservation(cfg.tenant, n, input, c)
  {
    LatestIsHighest(input.heartbeats);
  }

  lemma {:induction false} UpdateIssued(cfg: Config, inputs: map<nat, BatchInput>, credits: map<nat, CreditRequest>,
      n: nat, c: Uuid, t: Transfer)
    requires n in inputs && Shaped(cfg, n, inputs[n])
    requires c in Latest(inputs[n].heartbeats) && c in inputs[n].newPendingIds && c in inputs[n].voidIds
    requires t in VoidPart(UpdateFor(inputs[n], c)) || t in ReservePart(UpdateFor(inputs[n], c))
    ensures Genuine(cfg, inputs, credits, t)
  {
    UpdateParts(cfg, n, inputs[n], c);
  }

  lemma {:induction false} GaugeIssued(cfg: Config, inputs: map<nat, BatchInput>, credits: map<nat, CreditRequest>,
      n: nat, order: seq<Uuid>)
    requires n in inputs && Shaped(cfg, n, inputs[n]) && KnowsClusters(inputs[n], order)
    ensures AllIssued(cfg, inputs, credits, GaugeRequest(inputs[n], order))
  {
    var us := GaugeUpdates(inputs[n], order);
    forall t | t in GaugeBatch(us) ensures Genuine(cfg, inputs, credits, t) {
      var i := IndexInBatch(us, t);
      UpdateIssued(cfg, inputs, credits, n, order[i], t);
    }
  }

  lemma {:induction false} CreditIssued(cfg: Config, inputs: map<nat, BatchInput>, credits: map<nat, CreditRequest>,
      n: nat)
    requires n in credits
    ensures AllIssued(cfg, inputs, credits, [CreditTransfer(cfg, n, credits[n])])
  {
  }

  lemma {:induction false} InitialMembers(cfg: Config, t: Transfer)
    ensures t in InitialRequest(cfg, |AllResources|) <==> exists r :: r in cfg.initial && t == InitialTransfer(cfg, r)
  {
    assert InitialRequest(cfg, 0) == [];
    assert InitialRequest(cfg, 1) == if CpuHours in cfg.initial then [InitialTransfer(cfg, CpuHours)] else [];
    assert InitialRequest(cfg, 2) == InitialRequest(cfg, 1)
           + if MemoryGBHours in cfg.initial then [InitialTransfer(cfg, MemoryGBHours)] else [];
    assert InitialRequest(cfg, 3) == InitialRequest(cfg, 2)
           + if ActiveNodes in cfg.initial then [InitialTransfer(cfg, ActiveNodes)] else [];
    forall r | r in cfg.initial ensures InitialTransfer(cfg, r) in InitialRequest(cfg, 3) {
      match r {
        case CpuHours =>
          assert InitialTransfer(cfg, r) in InitialRequest(cfg, 1);
          assert InitialTransfer(cfg, r) in InitialRequest(cfg, 2);
        case MemoryGBHours =>
          assert InitialTransfer(cfg, r) in InitialRequest(cfg, 2);
        case ActiveNodes =>
      }
    }
  }

  lemma {:induction false} InitialIssued(cfg: Config, inputs: map<nat, BatchInput>, credits: map<nat, CreditRequest>)
    ensures AllIssued(cfg, inputs, credits, InitialRequest(cfg, |AllResources|))
  {
    forall t | t in InitialRequest(cfg, |AllResources|) ensures Genuine(cfg, inputs, credits, t) {
      InitialMembers(cfg, t);
    }
  }

  // ---------------------------------------------------------------------------------------------
  // What replies say, in terms that stay true
  // ---------------------------------------------------------------------------------------------

  /** The last transfer of a request on a resource's ledger. */
  function LastOn(ts: seq<Transfer>, r: Resource): Option<Transfer> {
    var i := LastIndex(ts, r);
    if i.Some? then Some(ts[i.value]) else None
  }

  predicate Decided(l: State, ts: seq<Transfer>) {
    forall t :: t in ts ==> t.id in l.transfers || t.id in l.failed
  }

  /** The reported result of a resource is that of its last transfer, accepted or burnt. */
  predicate ResultOfLast(l: State, ts: seq<Transfer>, per: map<Resource, TransferResult>, r: Resource) {
    && (r in per <==> LastOn(ts, r).Some?)
    && (r in per ==>
          && (per[r].accepted <==> !per[r].exceedsCredits)
          && (per[r].accepted ==> LastOn(ts, r).value.id in l.transfers)
          && (per[r].exceedsCredits ==> LastOn(ts, r).value.id in l.failed))
  }

  ghost predicate UsageAnswered(l: State, ts: seq<Transfer>, per: map<Resource, TransferResult>) {
    Decided(l, ts) && forall r: Resource :: !r.IsGauge() ==> ResultOfLast(l, ts, per, r)
  }

  lemma {:induction false} UsageAnsweredStays(l: State, l': State, ts: seq<Transfer>,
      per: map<Resource, TransferResult>)
    requires UsageAnswered(l, ts, per) && Extends(l, l')
    ensures UsageAnswered(l', ts, per)
  {
    forall r: Resource | !r.IsGauge() ensures ResultOfLast(l', ts, per, r) {
      assert ResultOfLast(l, ts, per, r);
    }
  }

  /** A classified transfer is committed or burnt, as its result says. */
  lemma {:induction false} ClassifiedIsDecided(l: State, ts: seq<Transfer>, i: nat)
    requires Valid(l) && AllClassifiable(Outcomes(l, ts)) && i < |ts|
    ensures var k, r := Run(l, ts), Classify(Outcomes(l, ts)[i]);
            && (r.accepted <==> !r.exceedsCredits)
            && (r.accepted ==> ts[i].id in k.transfers) && (r.exceedsCredits ==> ts[i].id in k.failed)
  {
    AnswerIsFinal(l, ts, i, []);
  }

  /** A classifiable usage request answers every resource by its last transfer. */
  lemma {:induction false} UsageReplyMeaning(l: State, ts: seq<Transfer>)
    requires Valid(l) && AllClassifiable(Outcomes(l, ts))
    ensures UsageAnswered(Run(l, ts), ts, PerResource(ts, Outcomes(l, ts)))
  {
    forall t | t in ts ensures t.id in Run(l, ts).transfers || t.id in Run(l, ts).failed {
      var i :| 0 <= i < |ts| && ts[i] == t;
      ClassifiedIsDecided(l, ts, i);
    }
    forall r: Resource | !r.IsGauge() ensures ResultOfLast(Run(l, ts), ts, PerResource(ts, Outcomes(l, ts)), r) {
      PerResourceIsLast(ts, Outcomes(l, ts), r);
      if LastIndex(ts, r).Some? {
        ClassifiedIsDecided(l, ts, LastIndex(ts, r).value);
      }
    }
  }

  /** For each cluster of the flush: its reservation stands or can never stand, and the old one is gone. */
  predicate ClusterAnswered(cfg: Config, l: State, n: nat, input: BatchInput, c: Uuid, g: Option<TransferId>)
    requires c in Latest(input.heartbeats)
  {
    && (g.Some? ==> g.value == Pid(cfg.tenant, n, c) && g.value in l.transfers)
    && (g.None? ==> GaugeAmount(input, c) == 0 || Pid(cfg.tenant, n, c) in l.failed)
    && (c in input.pendingGauge ==> input.pendingGauge[c] in l.voidedBy)
  }

  ghost predicate FlushAnswered(cfg: Config, l: State, n: nat, input: BatchInput, res: BatchResult) {
    && UsageAnswered(l, UsageRequest(input), res.perResource)
    && res.gauge.Keys == Latest(input.heartbeats).Keys
    && forall c :: c in res.gauge ==> ClusterAnswered(cfg, l, n, input, c, res.gauge[c])
  }

  lemma {:induction false} FlushAnsweredStays(cfg: Config, l: State, l': State, n: nat, input: BatchInput,
      res: BatchResult)
    requires FlushAnswered(cfg, l, n, input, res) && Extends(l, l')
    ensures FlushAnswered(cfg, l', n, input, res)
  {
    UsageAnsweredStays(l, l', UsageRequest(input), res.perResource);
    forall c | c in res.gauge ensures ClusterAnswered(cfg, l', n, input, c, res.gauge[c]) {
      assert ClusterAnswered(cfg, l, n, input, c, res.gauge[c]);
    }
  }

  lemma {:induction false} ClusterReplyMeaning(cfg: Config, l: State, n: nat, input: BatchInput, order: seq<Uuid>,
      i: nat)
    requires Valid(l) && Shaped(cfg, n, input) && KnowsClusters(input, order) && i < |order|
    requires AllTolerated(GaugeRequest(input, order), Outcomes(l, GaugeRequest(input, order)))
    requires forall c :: c in input.pendingGauge ==> input.pendingGauge[c] in l.transfers
    ensures var g := GaugeResultAt(GaugeUpdates(input, order), Outcomes(l, GaugeRequest(input, order)), i).newPendingId;
            ClusterAnswered(cfg, Run(l, GaugeRequest(input, order)), n, input, order[i], g)
  {
    GaugeResultStands(l, GaugeUpdates(input, order), i);
    UpdateParts(cfg, n, input, order[i]);
  }

  lemma {:induction false} GaugeKeys(input: BatchInput, order: seq<Uuid>, us: seq<GaugeUpdate>, gs: seq<GaugeResult>)
    requires IsOrder(order, Latest(input.heartbeats).Keys)
    requires |us| == |gs| == |order| && forall i :: 0 <= i < |order| ==> us[i].cluster == order[i]
    ensures GaugeMap(us, gs, |us|).Keys == Latest(input.heartbeats).Keys
    ensures forall i :: 0 <= i < |order| ==>
            order[i] in GaugeMap(us, gs, |us|) && GaugeMap(us, gs, |us|)[order[i]] == gs[i].newPendingId
  {
    GaugeMapEntries(us, gs, |us|);
    forall c | c in Latest(input.heartbeats).Keys ensures c in GaugeMap(us, gs, |us|) {
      var i :| 0 <= i < |order| && order[i] == c;
      assert us[i].cluster == c;
    }
  }

  /** A tolerable gauge request, after an answered usage request, answers the whole flush. */
  lemma {:induction false} GaugeReplyMeaning(cfg: Config, l: State, n: nat, input: BatchInput, order: seq<Uuid>,
      per: map<Resource, TransferResult>)
    requires Valid(l) && Shaped(cfg, n, input)
    requires IsOrder(order, Latest(input.heartbeats).Keys) && KnowsClusters(input, order)
    requires AllTolerated(GaugeRequest(input, order), Outcomes(l, GaugeRequest(input, order)))
    requires UsageAnswered(l, UsageRequest(input), per)
    requires forall c :: c in input.pendingGauge ==> input.pendingGauge[c] in l.transfers
    ensures FlushAnswered(cfg, Run(l, GaugeRequest(input, order)), n, input,
                          Report(input, order, per, Outcomes(l, GaugeRequest(input, order))))
  {
    var us, ts := GaugeUpdates(input, order), GaugeRequest(input, order);
    var os, l' := Outcomes(l, ts), Run(l, ts);
    var gs, res := GaugeResults(us, os), Report(input, order, per, os);
    RunExtends(l, ts);
    UsageAnsweredStays(l, l', UsageRequest(input), per);
    UsageIgnoresGauge(l', UsageRequest(input), per, gs);
    forall i | 0 <= i < |order| ensures us[i].cluster == order[i] {
      UpdateParts(cfg, n, input, order[i]);
    }
    GaugeKeys(input, order, us, gs);
    forall c | c in res.gauge ensures ClusterAnswered(cfg, l', n, input, c, res.gauge[c]) {
      var i :| 0 <= i < |order| && order[i] == c;
      ClusterReplyMeaning(cfg, l, n, input, order, i);
      assert gs[i] == GaugeResultAt(us, os, i);
    }
  }

  lemma {:induction false} UsageIgnoresGauge(l: State, ts: seq<Transfer>, per: map<Resource, TransferResult>,
      gs: seq<GaugeResult>)
    requires UsageAnswered(l, ts, per)
    ensures UsageAnswered(l, ts, WithGauge(per, gs, |gs|))
  {
    forall r: Resource | !r.IsGauge() ensures ResultOfLast(l, ts, WithGauge(per, gs, |gs|), r) {
      assert ResultOfLast(l, ts, per, r);
    }
  }

  // ---------------------------------------------------------------------------------------------
  // The invariant
  // ---------------------------------------------------------------------------------------------

  // Each part is stated over just the components of the state that it speaks about.

  type Inputs = map<nat, BatchInput>
  type Credits = map<nat, CreditRequest>

  /** Flushes and credits share one numbering, and no number is used twice. */
  ghost predicate Numbering(cfg: Config, last: nat, inputs: Inputs, credits: Credits) {
    && (forall n :: n in inputs ==> 1 <= n <= last && Shaped(cfg, n, inputs[n]))
    && (forall n :: n in credits ==> 1 <= n <= last)
    && inputs.Keys !! credits.Keys
  }

  ghost predicate Numbered(s: Sys) {
    s.wf.tenant == s.config.tenant && Numbering(s.config, s.wf.flushSeqNo, s.inputs, s.credits)
  }

  /** Only what was started has replies, completes or waits. */
  ghost predicate Started(s: Sys) {
    && s.done <= s.inputs.Keys && s.acked <= s.credits.Keys && s.waiting <= s.credits.Keys
    && (forall u :: u in s.usageReplies ==> u.flush in s.inputs)
    && (forall rp :: rp in s.reports ==> rp.flush in s.inputs)
  }

  /** The waiting flush is the latest, and works on exactly what the workflow holds. */
  ghost predicate WaitsOn(n: nat, inputs: Inputs, done: set<nat>, batch: seq<Heartbeat>,
      pending: map<Uuid, TransferId>) {
    && n in inputs && n !in done && (forall k :: k in inputs ==> k <= n)
    && inputs[n].heartbeats == batch && inputs[n].pendingGauge == pending
  }

  ghost predicate Waiting(s: Sys) {
    s.flushing.Some? ==> WaitsOn(s.flushing.value, s.inputs, s.done, s.wf.batch, s.wf.pendingGauge)
  }

  ghost predicate Books(cfg: Config, inputs: Inputs, credits: Credits, l: State) {
    && Valid(l) && l.accounts.Keys == TenantAccounts(cfg.tenant)
    && AllGenuine(cfg, inputs, credits, l)
    && (forall r :: r in cfg.initial ==>
          var t := InitialTransfer(cfg, r);
          t.id in l.transfers && l.transfers[t.id] == t)
  }

  ghost predicate Booked(s: Sys) {
    Books(s.config, s.inputs, s.credits, s.ledger)
  }

  /** A tracked ID names a reservation of a completed flush, made before `bound`. */
  predicate TracksOne(cfg: Config, inputs: Inputs, done: set<nat>, l: State, c: Uuid, id: TransferId, bound: nat) {
    && id.GaugePendingId? && id == Pid(cfg.tenant, id.seqNo, c)
    && id.seqNo in done && id.seqNo < bound
    && id.seqNo in inputs && c in Latest(inputs[id.seqNo].heartbeats)
    && id in l.transfers
  }

  ghost predicate TracksAll(cfg: Config, inputs: Inputs, done: set<nat>, l: State, pending: map<Uuid, TransferId>,
      bound: nat) {
    forall c :: c in pending ==> TracksOne(cfg, inputs, done, l, c, pending[c], bound)
  }

  ghost predicate Tracks(s: Sys) {
    && TracksAll(s.config, s.inputs, s.done, s.ledger, s.wf.pendingGauge, s.wf.flushSeqNo + 1)
    && forall n :: n in s.inputs ==> TracksAll(s.config, s.inputs, s.done, s.ledger, s.inputs[n].pendingGauge, n)
  }

  ghost predicate UsageRepliesOk(inputs: Inputs, l: State, replies: set<UsageReply>) {
    forall u :: u in replies && u.flush in inputs ==> UsageAnswered(l, UsageRequest(inputs[u.flush]), u.perResource)
  }

  ghost predicate ReportsOk(cfg: Config, inputs: Inputs, l: State, reports: set<FlushReport>) {
    forall rp :: rp in reports && rp.flush in inputs ==> FlushAnswered(cfg, l, rp.flush, inputs[rp.flush], rp.result)
  }

  ghost predicate Answered(s: Sys) {
    UsageRepliesOk(s.inputs, s.ledger, s.usageReplies) && ReportsOk(s.config, s.inputs, s.ledger, s.reports)
  }

  /** A completed flush's reservation is tracked, voided, burnt or was never asked for. */
  predicate ResolvedAt(cfg: Config, n: nat, input: BatchInput, l: State, pending: map<Uuid, TransferId>, c: Uuid)
    requires c in Latest(input.heartbeats)
  {
    var id := Pid(cfg.tenant, n, c);
    && ((c in pending && pending[c] == id) || id in l.voidedBy || id in l.failed || GaugeAmount(input, c) == 0)
    && (c in pending ==> pending[c].seqNo >= n)
  }

  ghost predicate FlushResolved(cfg: Config, n: nat, input: BatchInput, l: State, pending: map<Uuid, TransferId>) {
    && Decided(l, UsageRequest(input))
    && forall c :: c in Latest(input.heartbeats) ==> ResolvedAt(cfg, n, input, l, pending, c)
  }

  ghost predicate Resolved(s: Sys) {
    forall n :: n in s.done && n in s.inputs ==> FlushResolved(s.config, n, s.inputs[n], s.ledger, s.wf.pendingGauge)
  }

  /** The batch holds only new heartbeats; those of completed flushes are below the high-water marks. */
  ghost predicate BatchOk(processed: map<Uuid, nat>, batch: seq<Heartbeat>, inputs: Inputs, done: set<nat>) {
    && (forall hb :: hb in batch ==> hb.seqNo >= 1 && !Seen(processed, hb))
    && (forall n, hb :: n in done && n in inputs && hb in inputs[n].heartbeats ==> Seen(processed, hb))
    && (forall n, hb :: n in inputs && hb in inputs[n].heartbeats ==> hb.seqNo >= 1)
  }

  ghost predicate HistoryOk(batch: seq<Heartbeat>, inputs: Inputs, received: seq<Heartbeat>) {
    && (forall hb :: hb in batch ==> hb in received)
    && (forall n, hb :: n in inputs && hb in inputs[n].heartbeats ==> hb in received)
  }

  ghost predicate Batched(s: Sys) {
    BatchOk(s.wf.processed, s.wf.batch, s.inputs, s.done) && HistoryOk(s.wf.batch, s.inputs, s.received)
  }

  predicate SameKey(x: Heartbeat, y: Heartbeat) {
    x.cluster == y.cluster && x.seqNo == y.seqNo
  }

  ghost predicate Share(xs: seq<Heartbeat>, ys: seq<Heartbeat>) {
    exists x, y :: x in xs && y in ys && SameKey(x, y)
  }

  /** No two completed flushes share a heartbeat key. */
  ghost predicate DisjointFlushes(inputs: Inputs, done: set<nat>) {
    forall n, m :: n in done && m in done && n in inputs && m in inputs && n != m ==>
      !Share(inputs[n].heartbeats, inputs[m].heartbeats)
  }

  ghost predicate Disjoint(s: Sys) {
    DisjointFlushes(s.inputs, s.done)
  }

  ghost predicate CarriedBy(inputs: Inputs, done: set<nat>, c: Uuid, q: nat) {
    exists n :: n in done && n in inputs && Carries(inputs[n].heartbeats, c, q)
  }

  ghost predicate AckOk(processed: map<Uuid, nat>, lastAck: nat) {
    && (forall c :: c in processed ==> processed[c] <= lastAck)
    && (lastAck == 0 || exists c :: c in processed && processed[c] == lastAck)
  }

  ghost predicate MarksOk(processed: map<Uuid, nat>, inputs: Inputs, done: set<nat>) {
    forall c :: c in processed ==> processed[c] == 0 || CarriedBy(inputs, done, c, processed[c])
  }

  ghost predicate Marked(s: Sys) {
    AckOk(s.wf.processed, s.wf.lastAck) && MarksOk(s.wf.processed, s.inputs, s.done)
  }

  /** A tracked reservation was made from the heartbeat that its cluster's high-water mark names. */
  predicate SourcedAt(inputs: Inputs, processed: map<Uuid, nat>, c: Uuid, n: nat) {
    && n in inputs && c in Latest(inputs[n].heartbeats) && c in processed
    && Latest(inputs[n].heartbeats)[c].seqNo == processed[c]
  }

  ghost predicate SourcedAll(inputs: Inputs, processed: map<Uuid, nat>, pending: map<Uuid, TransferId>) {
    forall c :: c in pending ==> SourcedAt(inputs, processed, c, pending[c].seqNo)
  }

  ghost predicate Sourced(s: Sys) {
    SourcedAll(s.inputs, s.wf.processed, s.wf.pendingGauge)
  }

  /** What a log entry decides about a cumulative resource, if anything: was it rejected? */
  function Decides(l: State, inputs: Inputs, credits: Credits, e: Entry, r: Resource): Option<bool> {
    match e
    case FlushDone(n) =>
      if n in inputs && LastOn(UsageRequest(inputs[n]), r).Some?
      then Some(LastOn(UsageRequest(inputs[n]), r).value.id in l.failed) else None
    case CreditDone(n) =>
      if n in credits && credits[n].resource == r then Some(false) else None
  }

  /** The latest decisive entry of the log. */
  function Verdict(l: State, inputs: Inputs, credits: Credits, log: seq<Entry>, r: Resource): Option<bool> {
    if log == [] then None
    else
      var d := Decides(l, inputs, credits, log[|log| - 1], r);
      if d.Some? then d else Verdict(l, inputs, credits, log[..|log| - 1], r)
  }

  ghost predicate FlagsOk(exceeded: set<Resource>, l: State, inputs: Inputs, credits: Credits, log: seq<Entry>) {
    forall r: Resource :: !r.IsGauge() ==> (r in exceeded <==> Verdict(l, inputs, credits, log, r) == Some(true))
  }

  ghost predicate LogOk(log: seq<Entry>, done: set<nat>, acked: set<nat>) {
    && (forall n :: FlushDone(n) in log ==> n in done)
    && (forall n :: CreditDone(n) in log ==> n in acked)
  }

  ghost predicate Flagged(s: Sys) {
    LogOk(s.log, s.done, s.acked) && FlagsOk(s.wf.exceeded, s.ledger, s.inputs, s.credits, s.log)
  }

  ghost predicate CreditsOk(cfg: Config, credits: Credits, acked: set<nat>, l: State) {
    forall n :: n in acked && n in credits ==> CreditTransfer(cfg, n, credits[n]).id in l.transfers
  }

  ghost predicate Credited(s: Sys) {
    CreditsOk(s.config, s.credits, s.acked, s.ledger)
  }

  ghost predicate Inv(s: Sys) {
    && Numbered(s) && Started(s) && Waiting(s) && Booked(s) && Tracks(s) && Answered(s) && Resolved(s)
    && Batched(s) && Disjoint(s) && Marked(s) && Sourced(s) && Flagged(s) && Credited(s)
  }
}
