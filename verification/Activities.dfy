/** The activity that turns a batch of heartbeats into ledger requests, and the credit activity. */
module Activities {
  import opened Domain
  import opened TransferIds
  import opened Maps
  import opened Ledger
  import opened Transfers

  /** Input of the flush activity. The IDs were generated by the workflow, so retries reuse them. */
  datatype BatchInput = BatchInput(
    tenant: Uuid,
    heartbeats: seq<Heartbeat>,
    pendingGauge: map<Uuid, TransferId>,
    newPendingIds: map<Uuid, TransferId>,
    voidIds: map<Uuid, TransferId>)
  {
    predicate Valid() {
      forall hb :: hb in heartbeats ==> hb.cluster in newPendingIds && hb.cluster in voidIds
    }
  }

  /** `gauge[c] == None` says that the cluster's reservation was released without a new one. */
  datatype BatchResult = BatchResult(
    perResource: map<Resource, TransferResult>,
    gauge: map<Uuid, Option<TransferId>>)

  // ---------------------------------------------------------------------------------------------
  // Cumulative usage
  // ---------------------------------------------------------------------------------------------

  predicate Billed(hb: Heartbeat, r: Resource) {
    !r.IsGauge() && HeartbeatAmount(hb, r) != 0
  }

  /** The usage transfers of one heartbeat for the first `n` resources. */
  function UsageOf(tenant: Uuid, hb: Heartbeat, n: nat): seq<Transfer>
    requires n <= |AllResources|
  {
    if n == 0 then []
    else UsageOf(tenant, hb, n - 1)
         + if Billed(hb, AllResources[n - 1]) then [UsageTransfer(tenant, hb, AllResources[n - 1])] else []
  }

  function UsageBatch(tenant: Uuid, hbs: seq<Heartbeat>): seq<Transfer> {
    if hbs == [] then []
    else UsageBatch(tenant, hbs[..|hbs| - 1]) + UsageOf(tenant, hbs[|hbs| - 1], |AllResources|)
  }

  lemma {:induction false} UsageOfMembers(tenant: Uuid, hb: Heartbeat, t: Transfer)
    ensures t in UsageOf(tenant, hb, |AllResources|) <==>
            exists r :: Billed(hb, r) && t == UsageTransfer(tenant, hb, r)
  {
    assert UsageOf(tenant, hb, 0) == [];
    assert UsageOf(tenant, hb, 1) == if Billed(hb, CpuHours) then [UsageTransfer(tenant, hb, CpuHours)] else [];
    assert UsageOf(tenant, hb, 2) == UsageOf(tenant, hb, 1)
           + if Billed(hb, MemoryGBHours) then [UsageTransfer(tenant, hb, MemoryGBHours)] else [];
    assert UsageOf(tenant, hb, 3) == UsageOf(tenant, hb, 2);
  }

  /** The batch holds exactly one transfer per heartbeat and billed cumulative resource. */
  lemma {:induction false} UsageBatchMembers(tenant: Uuid, hbs: seq<Heartbeat>, t: Transfer)
    ensures t in UsageBatch(tenant, hbs) <==>
            exists hb, r :: hb in hbs && Billed(hb, r) && t == UsageTransfer(tenant, hb, r)
    decreases |hbs|
  {
    if hbs != [] {
      var zs, z := hbs[..|hbs| - 1], hbs[|hbs| - 1];
      UsageBatchMembers(tenant, zs, t);
      UsageOfMembers(tenant, z, t);
      assert hbs == zs + [z];
    }
  }

  /** Later results overwrite earlier ones of the same resource. */
  function PerResource(ts: seq<Transfer>, os: seq<Outcome>): map<Resource, TransferResult>
    requires |ts| == |os|
  {
    if ts == [] then map[]
    else
      var n := |ts| - 1;
      PerResource(ts[..n], os[..n])[ts[n].id.ledger := Classify(os[n])]
  }

  // ---------------------------------------------------------------------------------------------
  // Gauge reservations
  // ---------------------------------------------------------------------------------------------

  /** Per cluster, the heartbeat with the highest sequence number; the first of equals. */
  function Latest(hbs: seq<Heartbeat>): map<Uuid, Heartbeat> {
    if hbs == [] then map[]
    else
      var prev, hb := Latest(hbs[..|hbs| - 1]), hbs[|hbs| - 1];
      if hb.cluster !in prev || hb.seqNo > prev[hb.cluster].seqNo then prev[hb.cluster := hb] else prev
  }

  lemma {:induction false} LatestIsHighest(hbs: seq<Heartbeat>)
    ensures forall c :: c in Latest(hbs) ==> Latest(hbs)[c] in hbs && Latest(hbs)[c].cluster == c
    ensures forall hb :: hb in hbs ==> hb.cluster in Latest(hbs) && hb.seqNo <= Latest(hbs)[hb.cluster].seqNo
    decreases |hbs|
  {
    if hbs != [] {
      LatestIsHighest(hbs[..|hbs| - 1]);
      assert hbs == hbs[..|hbs| - 1] + [hbs[|hbs| - 1]];
    }
  }

  /** Heartbeat `i` is the first of those with its cluster's highest number. */
  predicate FirstHighest(hbs: seq<Heartbeat>, i: nat) {
    i < |hbs|
    && forall j :: 0 <= j < |hbs| && hbs[j].cluster == hbs[i].cluster ==>
         hbs[j].seqNo <= hbs[i].seqNo && (j < i ==> hbs[j].seqNo < hbs[i].seqNo)
  }

  lemma {:induction false} FirstHighestStays(zs: seq<Heartbeat>, z: Heartbeat, i: nat)
    requires FirstHighest(zs, i) && (z.cluster == zs[i].cluster ==> z.seqNo <= zs[i].seqNo)
    ensures FirstHighest(zs + [z], i) && (zs + [z])[i] == zs[i]
  {
  }

  lemma {:induction false} FirstHighestNew(zs: seq<Heartbeat>, z: Heartbeat)
    requires forall x :: x in zs && x.cluster == z.cluster ==> x.seqNo < z.seqNo
    ensures FirstHighest(zs + [z], |zs|) && (zs + [z])[|zs|] == z
  {
    assert forall j :: 0 <= j < |zs| ==> (zs + [z])[j] in zs;
  }

  /** Of several heartbeats with a cluster's highest number, the first one counts. */
  lemma {:induction false} LatestIsFirst(hbs: seq<Heartbeat>, c: Uuid) returns (i: nat)
    requires c in Latest(hbs)
    ensures FirstHighest(hbs, i) && hbs[i] == Latest(hbs)[c] && hbs[i].cluster == c
    decreases |hbs|
  {
    var zs, z := hbs[..|hbs| - 1], hbs[|hbs| - 1];
    assert hbs == zs + [z];
    LatestIsHighest(zs);
    if z.cluster == c && (c in Latest(zs) ==> z.seqNo > Latest(zs)[c].seqNo) {
      FirstHighestNew(zs, z);
      i := |zs|;
    } else {
      i := LatestIsFirst(zs, c);
      FirstHighestStays(zs, z, i);
    }
  }

  /** Any enumeration of the keys that Go's map iteration could produce. */
  ghost predicate IsOrder<K(!new)>(order: seq<K>, keys: set<K>) {
    && (forall i, j :: 0 <= i < j < |order| ==> order[i] != order[j])
    && (forall k :: k in order ==> k in keys)
    && (forall k :: k in keys ==> k in order)
  }

  function UpdateFor(input: BatchInput, c: Uuid): GaugeUpdate
    requires c in Latest(input.heartbeats) && c in input.newPendingIds && c in input.voidIds
  {
    var hb := Latest(input.heartbeats)[c];
    GaugeUpdate(input.tenant, hb.cluster,
                if c in input.pendingGauge then Some(input.pendingGauge[c]) else None,
                ToUint64(HeartbeatAmount(hb, ActiveNodes)), ToUint64(hb.timestampNs),
                input.newPendingIds[c], input.voidIds[c])
  }

  predicate KnowsClusters(input: BatchInput, order: seq<Uuid>) {
    forall i :: 0 <= i < |order| ==>
      order[i] in Latest(input.heartbeats) && order[i] in input.newPendingIds && order[i] in input.voidIds
  }

  lemma {:induction false} OrderIsKnown(input: BatchInput, order: seq<Uuid>)
    requires input.Valid() && IsOrder(order, Latest(input.heartbeats).Keys)
    ensures KnowsClusters(input, order)
  {
    LatestIsHighest(input.heartbeats);
    forall i | 0 <= i < |order|
      ensures order[i] in Latest(input.heartbeats) && order[i] in input.newPendingIds && order[i] in input.voidIds
    {
      assert order[i] in order;
      assert Latest(input.heartbeats)[order[i]] in input.heartbeats;
    }
  }

  function GaugeUpdates(input: BatchInput, order: seq<Uuid>): seq<GaugeUpdate>
    requires KnowsClusters(input, order)
  {
    seq(|order|, i requires 0 <= i < |order| => UpdateFor(input, order[i]))
  }

  /** One result per update. */
  function GaugeResults(us: seq<GaugeUpdate>, os: seq<Outcome>): seq<GaugeResult>
    requires |os| == |GaugeBatch(us)|
  {
    seq(|us|, i requires 0 <= i < |us| => GaugeResultAt(us, os, i))
  }

  /** The updated reservations of the first `n` updates. */
  function GaugeMap(us: seq<GaugeUpdate>, gs: seq<GaugeResult>, n: nat): map<Uuid, Option<TransferId>>
    requires n <= |us| == |gs|
  {
    if n == 0 then map[]
    else GaugeMap(us, gs, n - 1)[us[n - 1].cluster := gs[n - 1].newPendingId]
  }

  /** The gauge's entry is that of the last update. */
  function WithGauge(per: map<Resource, TransferResult>, gs: seq<GaugeResult>, n: nat): map<Resource, TransferResult>
    requires n <= |gs|
  {
    if n == 0 then per
    else per[ActiveNodes := TransferResult(gs[n - 1].accepted, gs[n - 1].exceedsCredits, false)]
  }

  lemma {:induction false} GaugeMapEntries(us: seq<GaugeUpdate>, gs: seq<GaugeResult>, n: nat)
    requires n <= |us| == |gs|
    requires forall i, j :: 0 <= i < j < |us| ==> us[i].cluster != us[j].cluster
    ensures forall i :: 0 <= i < n ==>
              us[i].cluster in GaugeMap(us, gs, n) && GaugeMap(us, gs, n)[us[i].cluster] == gs[i].newPendingId
    ensures forall c :: c in GaugeMap(us, gs, n) ==> exists i :: 0 <= i < n && us[i].cluster == c
  {
    if n > 0 {
      GaugeMapEntries(us, gs, n - 1);
    }
  }

  // ---------------------------------------------------------------------------------------------
  // The activity
  // ---------------------------------------------------------------------------------------------

  function UsageRequest(input: BatchInput): seq<Transfer> {
    UsageBatch(input.tenant, input.heartbeats)
  }

  function GaugeRequest(input: BatchInput, order: seq<Uuid>): seq<Transfer>
    requires KnowsClusters(input, order)
  {
    GaugeBatch(GaugeUpdates(input, order))
  }

  /** What one attempt reports, from the outcomes of its two requests. */
  function Report(input: BatchInput, order: seq<Uuid>, usage: map<Resource, TransferResult>,
      os: seq<Outcome>): BatchResult
    requires KnowsClusters(input, order) && |os| == |GaugeRequest(input, order)|
  {
    var us := GaugeUpdates(input, order);
    var gs := GaugeResults(us, os);
    BatchResult(WithGauge(usage, gs, |gs|), GaugeMap(us, gs, |us|))
  }

  method BuildUsage(input: BatchInput) returns (transfers: seq<Transfer>, resources: seq<Resource>)
    ensures transfers == UsageRequest(input)
    ensures |resources| == |transfers|
    ensures forall i :: 0 <= i < |transfers| ==> resources[i] == transfers[i].id.ledger
  {
    transfers, resources := [], [];
    for i := 0 to |input.heartbeats|
      invariant transfers == UsageBatch(input.tenant, input.heartbeats[..i])
      invariant |resources| == |transfers|
      invariant forall k :: 0 <= k < |transfers| ==> resources[k] == transfers[k].id.ledger
    {
      var hb := input.heartbeats[i];
      ghost var before := transfers;
      for j := 0 to |AllResources|
        invariant transfers == before + UsageOf(input.tenant, hb, j)
        invariant |resources| == |transfers|
        invariant forall k :: 0 <= k < |transfers| ==> resources[k] == transfers[k].id.ledger
      {
        var r := AllResources[j];
        if r.IsGauge() {
          continue;
        }
        if HeartbeatAmount(hb, r) == 0 {
          continue;
        }
        transfers := transfers + [UsageTransfer(input.tenant, hb, r)];
        resources := resources + [r];
      }
      assert input.heartbeats[..i + 1][..i] == input.heartbeats[..i];
    }
    assert input.heartbeats[..|input.heartbeats|] == input.heartbeats;
  }

  method LatestByCluster(hbs: seq<Heartbeat>) returns (latest: map<Uuid, Heartbeat>)
    ensures latest == Latest(hbs)
  {
    latest := map[];
    for i := 0 to |hbs|
      invariant latest == Latest(hbs[..i])
    {
      var hb := hbs[i];
      assert hbs[..i + 1][..i] == hbs[..i];
      if hb.cluster !in latest || hb.seqNo > latest[hb.cluster].seqNo {
        latest := latest[hb.cluster := hb];
      }
    }
    assert hbs[..|hbs|] == hbs;
  }

  method CollectUsage(transfers: seq<Transfer>, resources: seq<Resource>,
      results: seq<TransferResult>, ghost os: seq<Outcome>) returns (per: map<Resource, TransferResult>)
    requires |transfers| == |resources| == |results| == |os|
    requires forall i :: 0 <= i < |transfers| ==>
             resources[i] == transfers[i].id.ledger && results[i] == Classify(os[i])
    ensures per == PerResource(transfers, os)
  {
    per := map[];
    for i := 0 to |results|
      invariant per == PerResource(transfers[..i], os[..i])
    {
      assert transfers[..i + 1][..i] == transfers[..i] && os[..i + 1][..i] == os[..i];
      per := per[resources[i] := results[i]];
    }
    assert transfers[..|transfers|] == transfers && os[..|os|] == os;
  }

  method CollectGauge(per0: map<Resource, TransferResult>, us: seq<GaugeUpdate>, gs: seq<GaugeResult>)
    returns (per: map<Resource, TransferResult>, gauge: map<Uuid, Option<TransferId>>)
    requires |gs| == |us|
    ensures per == WithGauge(per0, gs, |gs|)
    ensures gauge == GaugeMap(us, gs, |us|)
  {
    per, gauge := per0, map[];
    for i := 0 to |gs|
      invariant per == WithGauge(per0, gs, i)
      invariant gauge == GaugeMap(us, gs, i)
    {
      per := per[ActiveNodes := TransferResult(gs[i].accepted, gs[i].exceedsCredits, false)];
      gauge := gauge[us[i].cluster := gs[i].newPendingId];
    }
  }

  /** The first request of an attempt. Nothing is sent when nothing is billed. */
  method SubmitUsage(client: LedgerClient, input: BatchInput) returns (r: Result<map<Resource, TransferResult>>)
    modifies client
    ensures client.ledger == Run(old(client.ledger), UsageRequest(input))
    ensures var os := Outcomes(old(client.ledger), UsageRequest(input));
            r == if AllClassifiable(os) then Success(PerResource(UsageRequest(input), os)) else Failure
  {
    var transfers, resources := BuildUsage(input);
    if |transfers| == 0 {
      return Success(map[]);
    }
    var usage := SubmitBatch(client, transfers);
    if usage.Failure? {
      return Failure;
    }
    var per := CollectUsage(transfers, resources, usage.value, Outcomes(old(client.ledger), transfers));
    return Success(per);
  }

  /** One update per cluster, in the order that the map iteration happened to have. */
  method BuildUpdates(input: BatchInput, order: seq<Uuid>) returns (updates: seq<GaugeUpdate>)
    requires KnowsClusters(input, order)
    ensures updates == GaugeUpdates(input, order)
  {
    var latest := LatestByCluster(input.heartbeats);
    updates := [];
    for i := 0 to |order|
      invariant |updates| == i
      invariant forall k :: 0 <= k < i ==> updates[k] == UpdateFor(input, order[k])
    {
      var c := order[i];
      var hb := latest[c];
      var oldId := if c in input.pendingGauge then Some(input.pendingGauge[c]) else None;
      updates := updates + [GaugeUpdate(input.tenant, hb.cluster, oldId, ToUint64(HeartbeatAmount(hb, ActiveNodes)),
                                        ToUint64(hb.timestampNs), input.newPendingIds[c], input.voidIds[c])];
    }
  }

  /** The second request of an attempt, for given updates. */
  method SubmitUpdates(client: LedgerClient, updates: seq<GaugeUpdate>, per0: map<Resource, TransferResult>)
    returns (r: Result<BatchResult>)
    modifies client
    ensures client.ledger == Run(old(client.ledger), GaugeBatch(updates))
    ensures var os := Outcomes(old(client.ledger), GaugeBatch(updates));
            var gs := GaugeResults(updates, os);
            r == if AllTolerated(GaugeBatch(updates), os)
                 then Success(BatchResult(WithGauge(per0, gs, |gs|), GaugeMap(updates, gs, |updates|))) else Failure
  {
    if |updates| == 0 {
      return Success(BatchResult(per0, map[]));
    }
    var gauge := SubmitGaugePendingUpdates(client, updates);
    if gauge.Failure? {
      return Failure;
    }
    assert gauge.value == GaugeResults(updates, Outcomes(old(client.ledger), GaugeBatch(updates)));
    var per, gaugeMap := CollectGauge(per0, updates, gauge.value);
    return Success(BatchResult(per, gaugeMap));
  }

  /**
   * One attempt of the flush activity. A usage request that cannot be classified stops it before
   * the gauge request; otherwise both requests reach the ledger, in this order.
   */
  method SubmitTBBatch(client: LedgerClient, input: BatchInput, order: seq<Uuid>) returns (r: Result<BatchResult>)
    requires input.Valid() && IsOrder(order, Latest(input.heartbeats).Keys)
    modifies client
    ensures KnowsClusters(input, order)
    ensures var l := old(client.ledger);
            var us := Outcomes(l, UsageRequest(input));
            if !AllClassifiable(us) then r.Failure? && client.ledger == Run(l, UsageRequest(input))
            else
              var l' := Run(l, UsageRequest(input));
              var gs := Outcomes(l', GaugeRequest(input, order));
              && client.ledger == Run(l', GaugeRequest(input, order))
              && r == if AllTolerated(GaugeRequest(input, order), gs)
                      then Success(Report(input, order, PerResource(UsageRequest(input), us), gs)) else Failure
  {
    OrderIsKnown(input, order);
    var usage := SubmitUsage(client, input);
    if usage.Failure? {
      return Failure;
    }
    var updates := BuildUpdates(input, order);
    r := SubmitUpdates(client, updates, usage.value);
  }

  // ---------------------------------------------------------------------------------------------
  // Allocations
  // ---------------------------------------------------------------------------------------------

  /** One credit per resource, all numbered alike, in the order of the map iteration. */
  function AllocationRequest(tenant: Uuid, n: nat, amounts: map<Resource, nat>, periodStartNs: nat,
      order: seq<Resource>)
    : seq<Transfer>
    requires forall i :: 0 <= i < |order| ==> order[i] in amounts
  {
    seq(|order|, i requires 0 <= i < |order| =>
      AllocationTransfer(tenant, n, order[i], amounts[order[i]], periodStartNs))
  }

  /** The credits as the ledger's unsigned amounts. */
  ghost function Amounts(credits: map<Resource, int64>): map<Resource, nat> {
    MapOf(credits.Keys, (r: Resource) requires r in credits => ToUint64(credits[r]))
  }

  /** The allocation activity: all credits in one request, nothing sent when there are none. */
  method SubmitAllocationTransfers(client: LedgerClient, tenant: Uuid, n: nat, credits: map<Resource, int64>,
      periodStartNs: nat, order: seq<Resource>) returns (ok: bool)
    requires IsOrder(order, credits.Keys)
    modifies client
    ensures var ts := AllocationRequest(tenant, n, Amounts(credits), periodStartNs, order);
            && client.ledger == Run(old(client.ledger), ts)
            && (ok <==> AllClassifiable(Outcomes(old(client.ledger), ts)))
  {
    var allocations := BuildAllocations(tenant, n, credits, periodStartNs, order);
    if |allocations| == 0 {
      return true;
    }
    var r := SubmitBatch(client, allocations);
    ok := r.Success?;
  }

  method BuildAllocations(tenant: Uuid, n: nat, credits: map<Resource, int64>, periodStartNs: nat, order: seq<Resource>)
    returns (allocations: seq<Transfer>)
    requires forall i :: 0 <= i < |order| ==> order[i] in credits
    ensures allocations == AllocationRequest(tenant, n, Amounts(credits), periodStartNs, order)
  {
    allocations := [];
    for i := 0 to |order|
      invariant |allocations| == i
      invariant forall k :: 0 <= k < i ==>
                  allocations[k] == AllocationTransfer(tenant, n, order[k], ToUint64(credits[order[k]]), periodStartNs)
    {
      var r := order[i];
      allocations := allocations + [AllocationTransfer(tenant, n, r, ToUint64(credits[r]), periodStartNs)];
    }
  }
}
