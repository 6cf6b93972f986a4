/**
 * The accounting workflow of one tenant: its state, what each handler does to it, and the
 * object whose methods do so. A flush and a credit are each split where they wait for the ledger.
 */
module Workflow {
  import opened Domain
  import opened TransferIds
  import opened Maps
  import opened Ledger
  import opened Transfers
  import opened Activities

  const BASE_FLUSH_INTERVAL := 2    // seconds
  const MAX_FLUSH_INTERVAL := 60    // seconds
  const BATCH_SIZE_THRESHOLD := 150

  datatype Wf = Wf(
    tenant: Uuid,
    processed: map<Uuid, nat>,
    batch: seq<Heartbeat>,
    pendingGauge: map<Uuid, TransferId>,
    exceeded: set<Resource>,
    lastAck: nat,
    flushSeqNo: nat,
    interval: nat)

  /** The workflow's start parameter; the carried parts are absent on the first start. */
  datatype StartInput = StartInput(
    tenant: Uuid,
    carryProcessed: Option<map<Uuid, nat>>,
    carryPendingGauge: Option<map<Uuid, TransferId>>,
    carryExceeded: Option<set<Resource>>,
    carryLastAck: nat,
    carryFlushSeqNo: nat)

  function OrElse<T>(o: Option<T>, d: T): T {
    if o.Some? then o.value else d
  }

  function Start(i: StartInput): Wf {
    Wf(i.tenant, OrElse(i.carryProcessed, map[]), [], OrElse(i.carryPendingGauge, map[]), OrElse(i.carryExceeded, {}),
       i.carryLastAck, i.carryFlushSeqNo, BASE_FLUSH_INTERVAL)
  }

  /** What a restart carries over. The current batch is not part of it. */
  function CarryOver(w: Wf): StartInput {
    StartInput(w.tenant, Some(w.processed), Some(w.pendingGauge), Some(w.exceeded), w.lastAck, w.flushSeqNo)
  }

  /** The cluster's high-water mark covers the heartbeat. */
  predicate Seen(processed: map<Uuid, nat>, hb: Heartbeat) {
    hb.cluster in processed && hb.seqNo <= processed[hb.cluster]
  }

  predicate SeenBefore(w: Wf, hb: Heartbeat) {
    Seen(w.processed, hb)
  }

  function OnHeartbeat(w: Wf, hb: Heartbeat): Wf {
    if SeenBefore(w, hb) then w else w.(batch := w.batch + [hb])
  }

  function OnRegister(w: Wf, c: Uuid): Wf {
    if c in w.processed then w else w.(processed := w.processed[c := 0])
  }

  function Clusters(hbs: seq<Heartbeat>): set<Uuid> {
    set hb | hb in hbs :: hb.cluster
  }

  /** The IDs of a flush: one per cluster of its batch, from the flush's own number. */
  ghost function PendingIds(tenant: Uuid, n: nat, hbs: seq<Heartbeat>): map<Uuid, TransferId> {
    MapOf(Clusters(hbs), (c: Uuid) => GaugePendingId(tenant, n, c, ActiveNodes))
  }

  ghost function VoidIds(tenant: Uuid, n: nat, hbs: seq<Heartbeat>): map<Uuid, TransferId> {
    MapOf(Clusters(hbs), (c: Uuid) => GaugeVoidId(tenant, n, c, ActiveNodes))
  }

  function NextNumber(w: Wf): Wf {
    w.(flushSeqNo := w.flushSeqNo + 1)
  }

  /** The activity input of flush `n`. */
  ghost function FlushInput(w: Wf, n: nat): BatchInput {
    BatchInput(w.tenant, w.batch, w.pendingGauge, PendingIds(w.tenant, n, w.batch), VoidIds(w.tenant, n, w.batch))
  }

  function ExceededAfter(exceeded: set<Resource>, per: map<Resource, TransferResult>): set<Resource> {
    set r | r in exceeded + per.Keys && (if r !in per then r in exceeded
                                         else per[r].exceedsCredits || (r in exceeded && !per[r].accepted))
  }

  /** A cluster with a new reservation tracks that one, a released one none, others what they had. */
  ghost function GaugeAfter(pending: map<Uuid, TransferId>,
      gauge: map<Uuid, Option<TransferId>>): map<Uuid, TransferId> {
    (pending - gauge.Keys)
    + MapOf(set c | c in gauge && gauge[c].Some?,
            (c: Uuid) requires c in gauge && gauge[c].Some? => gauge[c].value)
  }

  function ProcessedAfter(processed: map<Uuid, nat>, hbs: seq<Heartbeat>): map<Uuid, nat> {
    if hbs == [] then processed
    else
      var prev, hb := ProcessedAfter(processed, hbs[..|hbs| - 1]), hbs[|hbs| - 1];
      if hb.cluster !in prev || hb.seqNo > prev[hb.cluster] then prev[hb.cluster := hb.seqNo] else prev
  }

  function AckAfter(ack: nat, hbs: seq<Heartbeat>): nat {
    if hbs == [] then ack
    else
      var prev := AckAfter(ack, hbs[..|hbs| - 1]);
      if hbs[|hbs| - 1].seqNo > prev then hbs[|hbs| - 1].seqNo else prev
  }

  /** A flush's report is applied in one go; the batch it covers is forgotten. */
  ghost function ApplyReport(w: Wf, res: BatchResult): Wf {
    w.(exceeded := ExceededAfter(w.exceeded, res.perResource),
       pendingGauge := GaugeAfter(w.pendingGauge, res.gauge),
       processed := ProcessedAfter(w.processed, w.batch),
       lastAck := AckAfter(w.lastAck, w.batch),
       batch := [])
  }

  /** A confirmed credit clears the resource's flag; either way the flush interval starts over. */
  function EndCredit(w: Wf, r: Resource, ok: bool): Wf {
    w.(exceeded := if ok then w.exceeded - {r} else w.exceeded, interval := BASE_FLUSH_INTERVAL)
  }

  function IntervalAfterTimer(w: Wf, hadActivity: bool): nat {
    if hadActivity then BASE_FLUSH_INTERVAL
    else if w.interval * 2 > MAX_FLUSH_INTERVAL then MAX_FLUSH_INTERVAL
    else w.interval * 2
  }

  /** The interval after a number of idle timers in a row. */
  function IntervalAfterIdle(w: Wf, n: nat): nat {
    if n == 0 then w.interval else IntervalAfterTimer(w.(interval := IntervalAfterIdle(w, n - 1)), false)
  }

  function PowerOfTwo(n: nat): nat {
    if n == 0 then 1 else 2 * PowerOfTwo(n - 1)
  }

  /** From the base interval on, idle timers double it until it stays at a minute. */
  lemma {:induction false} IdleIntervalsDouble(w: Wf, n: nat)
    requires w.interval == BASE_FLUSH_INTERVAL
    ensures IntervalAfterIdle(w, n) == if 2 * PowerOfTwo(n) < 60 then 2 * PowerOfTwo(n) else 60
  {
    if n > 0 {
      IdleIntervalsDouble(w, n - 1);
    }
  }

  // ---------------------------------------------------------------------------------------------
  // What the folds compute
  // ---------------------------------------------------------------------------------------------

  ghost predicate RisesTo(processed: map<Uuid, nat>, p: map<Uuid, nat>, hbs: seq<Heartbeat>) {
    && p.Keys == processed.Keys + Clusters(hbs)
    && (forall c :: c in processed ==> c in p && processed[c] <= p[c])
    && (forall hb :: hb in hbs ==> hb.cluster in p && hb.seqNo <= p[hb.cluster])
    && (forall c :: c in p ==> (c in processed && p[c] == processed[c]) || Carries(hbs, c, p[c]))
  }

  ghost predicate Carries(hbs: seq<Heartbeat>, c: Uuid, n: nat) {
    exists hb :: hb in hbs && hb.cluster == c && hb.seqNo == n
  }

  lemma {:induction false} RisesBySnoc(processed: map<Uuid, nat>, q: map<Uuid, nat>, zs: seq<Heartbeat>, z: Heartbeat)
    requires RisesTo(processed, q, zs)
    ensures var p := if z.cluster !in q || z.seqNo > q[z.cluster] then q[z.cluster := z.seqNo] else q;
            RisesTo(processed, p, zs + [z])
  {
    var hbs := zs + [z];
    var p := if z.cluster !in q || z.seqNo > q[z.cluster] then q[z.cluster := z.seqNo] else q;
    ClustersSnoc(hbs, |zs|);
    assert hbs[..|zs|] == zs && hbs[..|zs| + 1] == hbs;
    forall c | c in p && !(c in processed && p[c] == processed[c]) ensures Carries(hbs, c, p[c]) {
      if c == z.cluster && p[c] == z.seqNo {
        assert z in hbs;
      } else {
        assert Carries(zs, c, q[c]);
        var hb :| hb in zs && hb.cluster == c && hb.seqNo == q[c];
        assert hb in hbs;
      }
    }
  }

  /** High-water marks only rise, to exactly the highest number of the batch. */
  lemma {:induction false} ProcessedIsHighest(processed: map<Uuid, nat>, hbs: seq<Heartbeat>)
    ensures RisesTo(processed, ProcessedAfter(processed, hbs), hbs)
    decreases |hbs|
  {
    if hbs != [] {
      var zs, z := hbs[..|hbs| - 1], hbs[|hbs| - 1];
      ProcessedIsHighest(processed, zs);
      RisesBySnoc(processed, ProcessedAfter(processed, zs), zs, z);
      assert hbs == zs + [z];
    }
  }

  lemma {:induction false} AckIsHighest(ack: nat, hbs: seq<Heartbeat>)
    ensures ack <= AckAfter(ack, hbs)
    ensures forall hb :: hb in hbs ==> hb.seqNo <= AckAfter(ack, hbs)
    ensures AckAfter(ack, hbs) == ack || exists hb :: hb in hbs && hb.seqNo == AckAfter(ack, hbs)
    decreases |hbs|
  {
    if hbs != [] {
      var zs, z := hbs[..|hbs| - 1], hbs[|hbs| - 1];
      AckIsHighest(ack, zs);
      assert hbs == zs + [z];
      if AckAfter(ack, hbs) != ack {
        if AckAfter(ack, hbs) == z.seqNo {
          assert z in hbs;
        } else {
          var hb :| hb in zs && hb.seqNo == AckAfter(ack, zs);
          assert hb in hbs;
        }
      }
    }
  }

  /** Where a request's last transfer on a resource's ledger stands. */
  function LastIndex(ts: seq<Transfer>, r: Resource): (i: Option<nat>)
    ensures i.Some? ==> i.value < |ts| && ts[i.value].id.ledger == r
    ensures forall k :: 0 <= k < |ts| && ts[k].id.ledger == r ==> i.Some? && k <= i.value
  {
    if ts == [] then None
    else if ts[|ts| - 1].id.ledger == r then Some(|ts| - 1)
    else LastIndex(ts[..|ts| - 1], r)
  }

  lemma {:induction false} PerResourceIsLast(ts: seq<Transfer>, os: seq<Outcome>, r: Resource)
    requires |ts| == |os|
    ensures r in PerResource(ts, os) <==> LastIndex(ts, r).Some?
    ensures r in PerResource(ts, os) ==> PerResource(ts, os)[r] == Classify(os[LastIndex(ts, r).value])
    decreases |ts|
  {
    if ts != [] {
      PerResourceIsLast(ts[..|ts| - 1], os[..|os| - 1], r);
    }
  }

  /**
   * A resource's flag follows the last of its transfers in the batch, and stays where there is
   * none: an earlier rejection in the batch does not raise it.
   */
  lemma {:induction false} FlagFollowsLastTransfer(exceeded: set<Resource>, ts: seq<Transfer>, os: seq<Outcome>,
      r: Resource)
    requires |ts| == |os| && AllClassifiable(os)
    ensures r in ExceededAfter(exceeded, PerResource(ts, os)) <==>
            if LastIndex(ts, r).Some? then os[LastIndex(ts, r).value].ExceedsCredits? else r in exceeded
  {
    PerResourceIsLast(ts, os, r);
  }

  // ---------------------------------------------------------------------------------------------
  // The object
  // ---------------------------------------------------------------------------------------------

  /** Deterministic IDs for the reservations and voids of a flush. */
  method FlushIds(tenant: Uuid, n: nat, hbs: seq<Heartbeat>)
    returns (pendingIds: map<Uuid, TransferId>, voidIds: map<Uuid, TransferId>)
    ensures pendingIds == PendingIds(tenant, n, hbs)
    ensures voidIds == VoidIds(tenant, n, hbs)
  {
    pendingIds, voidIds := map[], map[];
    for i := 0 to |hbs|
      invariant pendingIds.Keys == voidIds.Keys == Clusters(hbs[..i])
      invariant forall c :: c in pendingIds ==> pendingIds[c] == GaugePendingId(tenant, n, c, ActiveNodes)
      invariant forall c :: c in voidIds ==> voidIds[c] == GaugeVoidId(tenant, n, c, ActiveNodes)
    {
      var c := hbs[i].cluster;
      pendingIds := pendingIds[c := GaugePendingId(tenant, n, c, ActiveNodes)];
      voidIds := voidIds[c := GaugeVoidId(tenant, n, c, ActiveNodes)];
      ClustersSnoc(hbs, i);
    }
    assert hbs[..|hbs|] == hbs;
    IdsByCluster(tenant, n, hbs, pendingIds, voidIds);
  }

  lemma {:induction false} IdsByCluster(tenant: Uuid, n: nat, hbs: seq<Heartbeat>, pendingIds: map<Uuid, TransferId>,
      voidIds: map<Uuid, TransferId>)
    requires pendingIds.Keys == voidIds.Keys == Clusters(hbs)
    requires forall c :: c in pendingIds ==> pendingIds[c] == GaugePendingId(tenant, n, c, ActiveNodes)
    requires forall c :: c in voidIds ==> voidIds[c] == GaugeVoidId(tenant, n, c, ActiveNodes)
    ensures pendingIds == PendingIds(tenant, n, hbs) && voidIds == VoidIds(tenant, n, hbs)
  {
  }

  lemma {:induction false} ClustersSnoc(hbs: seq<Heartbeat>, i: nat)
    requires i < |hbs|
    ensures Clusters(hbs[..i + 1]) == Clusters(hbs[..i]) + {hbs[i].cluster}
  {
    assert hbs[..i + 1] == hbs[..i] + [hbs[i]];
  }

  /** Goes through a flush's gauge results: no new reservation clears the entry, a new one replaces it. */
  method WithGaugeResults(pending: map<Uuid, TransferId>, gauge: map<Uuid, Option<TransferId>>)
    returns (ids: map<Uuid, TransferId>)
    ensures ids == GaugeAfter(pending, gauge)
  {
    ids := pending;
    var todo := gauge.Keys;
    while todo != {}
      invariant todo <= gauge.Keys
      invariant forall c :: c in ids <==> if c in todo || c !in gauge then c in pending else gauge[c].Some?
      invariant forall c :: c in ids ==> ids[c] == if c in todo || c !in gauge then pending[c] else gauge[c].value
      decreases |todo|
    {
      var c :| c in todo;
      if gauge[c].None? {
        ids := ids - {c};
      } else {
        ids := ids[c := gauge[c].value];
      }
      todo := todo - {c};
    }
    GaugeByCluster(pending, gauge, ids);
  }

  lemma {:induction false} GaugeByCluster(pending: map<Uuid, TransferId>, gauge: map<Uuid, Option<TransferId>>,
      ids: map<Uuid, TransferId>)
    requires forall c :: c in ids <==> if c !in gauge then c in pending else gauge[c].Some?
    requires forall c :: c in ids ==> ids[c] == if c !in gauge then pending[c] else gauge[c].value
    ensures ids == GaugeAfter(pending, gauge)
  {
  }

  class TenantAccounting {
    const tenant: Uuid
    var processedSeqs: map<Uuid, nat>
    var curBatch: seq<Heartbeat>
    var pendingGaugeIds: map<Uuid, TransferId>
    var exceededResources: set<Resource>
    var lastAck: nat
    var flushSeqNo: nat
    var currentFlushInterval: nat

    ghost function View(): Wf
      reads this
    {
      Wf(tenant, processedSeqs, curBatch, pendingGaugeIds, exceededResources, lastAck, flushSeqNo, currentFlushInterval)
    }

    constructor (input: StartInput)
      ensures View() == Start(input)
    {
      tenant := input.tenant;
      processedSeqs := if input.carryProcessed.None? then map[] else input.carryProcessed.value;
      pendingGaugeIds := if input.carryPendingGauge.None? then map[] else input.carryPendingGauge.value;
      exceededResources := if input.carryExceeded.None? then {} else input.carryExceeded.value;
      curBatch := [];
      lastAck := input.carryLastAck;
      flushSeqNo := input.carryFlushSeqNo;
      currentFlushInterval := BASE_FLUSH_INTERVAL;
    }

    /** Heartbeat signal: skipped when its number is processed, else batched; a full batch flushes now. */
    method ReceiveHeartbeat(sig: Heartbeat) returns (flushNow: bool)
      modifies this
      ensures View() == OnHeartbeat(old(View()), sig)
      ensures flushNow <==> !SeenBefore(old(View()), sig) && |curBatch| >= BATCH_SIZE_THRESHOLD
    {
      if sig.cluster in processedSeqs && sig.seqNo <= processedSeqs[sig.cluster] {
        return false;
      }
      curBatch := curBatch + [sig];
      flushNow := |curBatch| >= BATCH_SIZE_THRESHOLD;
    }

    method RegisterCluster(c: Uuid)
      modifies this
      ensures View() == OnRegister(old(View()), c)
    {
      if c !in processedSeqs {
        processedSeqs := processedSeqs[c := 0];
      }
    }

    /** Up to the activity call: an empty batch needs none; else a new number and the IDs made from it. */
    method BeginFlush() returns (input: Option<BatchInput>)
      modifies this
      ensures old(curBatch) == [] ==> input.None? && View() == old(View())
      ensures old(curBatch) != [] ==>
              View() == NextNumber(old(View())) && input == Some(FlushInput(old(View()), flushSeqNo))
    {
      if |curBatch| == 0 {
        return None;
      }
      flushSeqNo := flushSeqNo + 1;
      var pendingIds, voidIds := FlushIds(tenant, flushSeqNo, curBatch);
      return Some(BatchInput(tenant, curBatch, pendingGaugeIds, pendingIds, voidIds));
    }

    method UpdateExceeded(per: map<Resource, TransferResult>)
      modifies this`exceededResources
      ensures exceededResources == ExceededAfter(old(exceededResources), per)
    {
      var todo := per.Keys;
      while todo != {}
        invariant todo <= per.Keys
        invariant forall r: Resource ::
                    r in exceededResources <==>
                    if r in todo || r !in per then r in old(exceededResources)
                    else r in ExceededAfter(old(exceededResources), per)
        decreases |todo|
      {
        var r :| r in todo;
        if per[r].exceedsCredits {
          exceededResources := exceededResources + {r};
        } else if per[r].accepted {
          exceededResources := exceededResources - {r};
        }
        todo := todo - {r};
      }
    }

    method UpdateGauge(gauge: map<Uuid, Option<TransferId>>)
      modifies this`pendingGaugeIds
      ensures pendingGaugeIds == GaugeAfter(old(pendingGaugeIds), gauge)
    {
      pendingGaugeIds := WithGaugeResults(pendingGaugeIds, gauge);
    }

    method UpdateSeqs()
      modifies this`processedSeqs, this`lastAck
      ensures processedSeqs == ProcessedAfter(old(processedSeqs), curBatch)
      ensures lastAck == AckAfter(old(lastAck), curBatch)
    {
      for i := 0 to |curBatch|
        invariant processedSeqs == ProcessedAfter(old(processedSeqs), curBatch[..i])
        invariant lastAck == AckAfter(old(lastAck), curBatch[..i])
      {
        var hb := curBatch[i];
        assert curBatch[..i + 1][..i] == curBatch[..i];
        if hb.cluster !in processedSeqs || hb.seqNo > processedSeqs[hb.cluster] {
          processedSeqs := processedSeqs[hb.cluster := hb.seqNo];
        }
        if hb.seqNo > lastAck {
          lastAck := hb.seqNo;
        }
      }
      assert curBatch[..|curBatch|] == curBatch;
    }

    /** After the activity succeeded. A failed activity leaves the state as it is. */
    method FinishFlush(result: BatchResult)
      modifies this
      ensures View() == ApplyReport(old(View()), result)
    {
      UpdateExceeded(result.perResource);
      UpdateGauge(result.gauge);
      UpdateSeqs();
      curBatch := [];
    }

    /** Validates a credit and, if valid, numbers it and builds its transfer. */
    method BeginCredit(r: Resource, amount: int64) returns (t: Option<Transfer>)
      modifies this
      ensures amount <= 0 ==> t.None? && View() == old(View())
      ensures amount > 0 ==> View() == NextNumber(old(View()))
                             && t == Some(AllocationTransfer(tenant, flushSeqNo, r, amount, 0))
    {
      if amount <= 0 {
        return None;
      }
      flushSeqNo := flushSeqNo + 1;
      return Some(AllocationTransfer(tenant, flushSeqNo, r, ToUint64(amount), 0));
    }

    /** After the allocation activity ended. */
    method FinishCredit(r: Resource, ok: bool)
      modifies this
      ensures View() == EndCredit(old(View()), r, ok)
    {
      if ok {
        exceededResources := exceededResources - {r};
      }
      currentFlushInterval := BASE_FLUSH_INTERVAL;
    }

    /** After a timer-driven flush attempt: base interval when busy, doubling up to the cap when idle. */
    method AdaptInterval(hadActivity: bool)
      modifies this
      ensures View() == old(View()).(interval := IntervalAfterTimer(old(View()), hadActivity))
    {
      if hadActivity {
        currentFlushInterval := BASE_FLUSH_INTERVAL;
      } else {
        var next := currentFlushInterval * 2;
        if next > MAX_FLUSH_INTERVAL {
          next := MAX_FLUSH_INTERVAL;
        }
        currentFlushInterval := next;
      }
    }

    method ContinueAsNew() returns (input: StartInput)
      ensures input == CarryOver(View())
    {
      input := StartInput(tenant, Some(processedSeqs), Some(pendingGaugeIds), Some(exceededResources), lastAck,
                          flushSeqNo);
    }
  }
}
