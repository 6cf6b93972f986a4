/**
 * Submission of transfers and classification of the ledger's answers: usage and allocation
 * batches, and the void-and-replace updates of gauge reservations.
 */
module Transfers {
  import opened Domain
  import opened TransferIds
  import opened Ledger

  const NO_UUID := Uuid([0, 0, 0, 0, 0, 0, 0, 0, 0, 0, 0, 0, 0, 0, 0, 0])

  /** Usage: tenant wallet to sink, posted at once. */
  function UsageTransfer(tenant: Uuid, hb: Heartbeat, r: Resource): Transfer {
    Transfer(UsageId(hb.cluster, hb.seqNo, r), Wallet(tenant, r), Sink(r), ToUint64(HeartbeatAmount(hb, r)),
             Posted, hb.cluster, ToUint64(hb.timestampNs))
  }

  /** Credit: operator to tenant wallet, posted at once. */
  function AllocationTransfer(tenant: Uuid, seqNo: nat, r: Resource, amount: nat, periodStartNs: nat): Transfer {
    Transfer(AllocationId(tenant, seqNo, r), Operator(r), Wallet(tenant, r), amount, Posted, tenant, periodStartNs)
  }

  /** One cluster's gauge moving from its old reservation, if any, to a new amount. */
  datatype GaugeUpdate = GaugeUpdate(
    tenant: Uuid,
    cluster: Uuid,
    oldId: Option<TransferId>,
    newAmount: nat,
    timestampNs: nat,
    newId: TransferId,
    voidId: TransferId)

  function VoidTransfer(u: GaugeUpdate): Transfer
    requires u.oldId.Some?
  {
    Transfer(u.voidId, Wallet(u.tenant, ActiveNodes), Sink(ActiveNodes), 0, VoidPending(u.oldId.value), NO_UUID, 0)
  }

  function ReserveTransfer(u: GaugeUpdate): Transfer {
    Transfer(u.newId, Wallet(u.tenant, ActiveNodes), Sink(ActiveNodes), u.newAmount, Pending, u.cluster, u.timestampNs)
  }

  function VoidPart(u: GaugeUpdate): seq<Transfer> {
    if u.oldId.Some? then [VoidTransfer(u)] else []
  }

  function ReservePart(u: GaugeUpdate): seq<Transfer> {
    if u.newAmount > 0 then [ReserveTransfer(u)] else []
  }

  /** The void comes first, so that its capacity is free before the new reservation lands. */
  function GaugeBatch(us: seq<GaugeUpdate>): seq<Transfer> {
    if us == [] then []
    else GaugeBatch(us[..|us| - 1]) + VoidPart(us[|us| - 1]) + ReservePart(us[|us| - 1])
  }

  // ---------------------------------------------------------------------------------------------
  // Classification
  // ---------------------------------------------------------------------------------------------

  predicate AlreadyCommitted(o: Outcome) {
    o.Exists? || o.ExistsWithDifferentAccount? || o.ExistsWithDifferentAmount?
  }

  datatype TransferResult = TransferResult(accepted: bool, exceedsCredits: bool, alreadyExists: bool)

  /** Outcomes a usage or allocation batch can carry without failing as a whole. */
  predicate Classifiable(o: Outcome) {
    o.Ok? || o.ExceedsCredits? || AlreadyCommitted(o)
  }

  function Classify(o: Outcome): TransferResult {
    TransferResult(o.Ok? || AlreadyCommitted(o), o.ExceedsCredits?, AlreadyCommitted(o))
  }

  predicate AllClassifiable(os: seq<Outcome>) {
    forall i :: 0 <= i < |os| ==> Classifiable(os[i])
  }

  /** Outcomes a gauge batch tolerates: a void may also find its target already gone. */
  predicate Tolerated(isVoid: bool, o: Outcome) {
    Classifiable(o) || (isVoid && (o.PendingTransferNotFound? || o.PendingTransferAlreadyVoided?))
  }

  predicate AllTolerated(ts: seq<Transfer>, os: seq<Outcome>)
    requires |ts| == |os|
  {
    forall i :: 0 <= i < |os| ==> Tolerated(ts[i].kind.VoidPending?, os[i])
  }

  datatype GaugeResult = GaugeResult(newPendingId: Option<TransferId>, accepted: bool, exceedsCredits: bool)

  /** Where the reservation of update `i` sits in the batch, when there is one. */
  function ReserveIndex(us: seq<GaugeUpdate>, i: nat): nat
    requires i < |us|
  {
    |GaugeBatch(us[..i])| + |VoidPart(us[i])|
  }

  lemma {:induction false} BatchSnoc(us: seq<GaugeUpdate>)
    requires us != []
    ensures GaugeBatch(us) ==
            GaugeBatch(us[..|us| - 1]) + (VoidPart(us[|us| - 1]) + ReservePart(us[|us| - 1]))
  {
  }

  /** The transfers of update `u` stand in the batch from `k` on, the void first. */
  predicate PlacedAt(batch: seq<Transfer>, u: GaugeUpdate, k: nat) {
    && k + |VoidPart(u)| + |ReservePart(u)| <= |batch|
    && (u.oldId.Some? ==> batch[k] == VoidTransfer(u))
    && (u.newAmount > 0 ==> batch[k + |VoidPart(u)|] == ReserveTransfer(u))
  }

  lemma {:induction false} PlacedEarlier(batch: seq<Transfer>, more: seq<Transfer>, u: GaugeUpdate, k: nat)
    requires PlacedAt(batch, u, k)
    ensures PlacedAt(batch + more, u, k)
  {
  }

  lemma {:induction false} PlacedLast(batch: seq<Transfer>, u: GaugeUpdate)
    ensures PlacedAt(batch + (VoidPart(u) + ReservePart(u)), u, |batch|)
  {
  }

  lemma {:induction false} PlacedSnoc(zs: seq<GaugeUpdate>, z: GaugeUpdate, batch: seq<Transfer>, i: nat)
    requires i < |zs| && PlacedAt(GaugeBatch(zs), zs[i], |GaugeBatch(zs[..i])|)
    requires batch == GaugeBatch(zs) + (VoidPart(z) + ReservePart(z))
    ensures PlacedAt(batch, zs[i], |GaugeBatch(zs[..i])|)
  {
    PlacedEarlier(GaugeBatch(zs), VoidPart(z) + ReservePart(z), zs[i], |GaugeBatch(zs[..i])|);
  }

  lemma {:induction false} ReserveIndexInBatch(us: seq<GaugeUpdate>, i: nat)
    requires i < |us|
    ensures PlacedAt(GaugeBatch(us), us[i], |GaugeBatch(us[..i])|)
    decreases |us|
  {
    var zs, z := us[..|us| - 1], us[|us| - 1];
    BatchSnoc(us);
    if i < |zs| {
      ReserveIndexInBatch(zs, i);
      PlacedSnoc(zs, z, GaugeBatch(us), i);
      assert zs[..i] == us[..i];
    } else {
      PlacedLast(GaugeBatch(zs), z);
    }
  }

  /** What the caller is told about update `i` of a batch that did not fail. */
  function GaugeResultAt(us: seq<GaugeUpdate>, os: seq<Outcome>, i: nat): GaugeResult
    requires i < |us| && |os| == |GaugeBatch(us)|
  {
    if us[i].newAmount == 0 then GaugeResult(None, true, false)
    else
      ReserveIndexInBatch(us, i);
      if os[ReserveIndex(us, i)].ExceedsCredits? then GaugeResult(None, false, true)
      else GaugeResult(Some(us[i].newId), true, false)
  }

  ghost predicate DistinctIds(ts: seq<Transfer>) {
    forall i, j :: 0 <= i < j < |ts| ==> ts[i].id != ts[j].id
  }

  predicate OwnIds(u: GaugeUpdate, v: GaugeUpdate) {
    u.newId != v.newId && u.newId != v.voidId && u.voidId != v.newId && u.voidId != v.voidId
  }

  lemma {:induction false} BatchAvoids(us: seq<GaugeUpdate>, z: GaugeUpdate, t: Transfer)
    requires (forall u :: u in us ==> OwnIds(u, z)) && t in GaugeBatch(us)
    ensures t.id != z.newId && t.id != z.voidId
  {
    BatchMembers(us, t);
    var u :| u in us && (t in VoidPart(u) || t in ReservePart(u));
    assert OwnIds(u, z);
  }

  lemma {:induction false} DistinctConcat(ts: seq<Transfer>, us: seq<Transfer>)
    requires DistinctIds(ts) && DistinctIds(us) && forall t, u :: t in ts && u in us ==> t.id != u.id
    ensures DistinctIds(ts + us)
  {
  }

  lemma {:induction false} DistinctSnoc(us: seq<GaugeUpdate>, z: GaugeUpdate)
    requires DistinctIds(GaugeBatch(us)) && z.newId != z.voidId && forall u :: u in us ==> OwnIds(u, z)
    ensures DistinctIds(GaugeBatch(us) + (VoidPart(z) + ReservePart(z)))
  {
    forall t, v | t in GaugeBatch(us) && v in VoidPart(z) + ReservePart(z) ensures t.id != v.id {
      BatchAvoids(us, z, t);
    }
    DistinctConcat(GaugeBatch(us), VoidPart(z) + ReservePart(z));
  }

  /** Updates with IDs of their own make a batch without repeated IDs. */
  lemma {:induction false} DistinctInBatch(us: seq<GaugeUpdate>)
    requires forall u :: u in us ==> u.newId != u.voidId
    requires forall i, j :: 0 <= i < j < |us| ==> OwnIds(us[i], us[j])
    ensures DistinctIds(GaugeBatch(us))
    decreases |us|
  {
    if us != [] {
      var zs, z := us[..|us| - 1], us[|us| - 1];
      DistinctInBatch(zs);
      assert z in us;
      forall u | u in zs ensures OwnIds(u, z) {
        var i :| 0 <= i < |zs| && zs[i] == u;
        assert us[i] == u;
      }
      DistinctSnoc(zs, z);
      BatchSnoc(us);
    }
  }

  lemma {:induction false} BatchMembers(us: seq<GaugeUpdate>, t: Transfer)
    ensures t in GaugeBatch(us) <==> exists u :: u in us && (t in VoidPart(u) || t in ReservePart(u))
    decreases |us|
  {
    if us != [] {
      var zs, z := us[..|us| - 1], us[|us| - 1];
      BatchMembers(zs, t);
      assert us == zs + [z];
    }
  }

  lemma {:induction false} IndexInBatch(us: seq<GaugeUpdate>, t: Transfer) returns (i: nat)
    requires t in GaugeBatch(us)
    ensures i < |us| && (t in VoidPart(us[i]) || t in ReservePart(us[i]))
  {
    BatchMembers(us, t);
    var u :| u in us && (t in VoidPart(u) || t in ReservePart(u));
    i :| 0 <= i < |us| && us[i] == u;
  }

  // ---------------------------------------------------------------------------------------------
  // The ledger's sparse answer
  // ---------------------------------------------------------------------------------------------

  datatype Rejection = Rejection(index: nat, outcome: Outcome)

  /** Only transfers that did not commit are reported, in batch order. */
  function Rejections(os: seq<Outcome>): seq<Rejection> {
    if os == [] then []
    else
      var n := |os| - 1;
      Rejections(os[..n]) + (if os[n].Ok? then [] else [Rejection(n, os[n])])
  }

  ghost predicate Reported(rs: seq<Rejection>, i: nat) {
    exists k :: 0 <= k < |rs| && rs[k].index == i
  }

  /** An index is reported exactly when its transfer did not commit, with its own outcome, once. */
  ghost predicate Faithful(rs: seq<Rejection>, os: seq<Outcome>) {
    && (forall k :: 0 <= k < |rs| ==> rs[k].index < |os| && rs[k].outcome == os[rs[k].index] && !rs[k].outcome.Ok?)
    && (forall j, k :: 0 <= j < k < |rs| ==> rs[j].index < rs[k].index)
    && (forall i :: 0 <= i < |os| && !os[i].Ok? ==> Reported(rs, i))
  }

  lemma {:induction false} ReportedStays(rs: seq<Rejection>, more: seq<Rejection>, i: nat)
    requires Reported(rs, i)
    ensures Reported(rs + more, i)
  {
    var k :| 0 <= k < |rs| && rs[k].index == i;
    assert (rs + more)[k].index == i;
  }

  lemma {:induction false} FaithfulSnoc(rs: seq<Rejection>, os: seq<Outcome>, x: Outcome)
    requires Faithful(rs, os)
    ensures Faithful(rs + (if x.Ok? then [] else [Rejection(|os|, x)]), os + [x])
  {
    var more := if x.Ok? then [] else [Rejection(|os|, x)];
    forall i | 0 <= i < |os + [x]| && !(os + [x])[i].Ok? ensures Reported(rs + more, i) {
      if i < |os| {
        ReportedStays(rs, more, i);
      } else {
        assert (rs + more)[|rs|].index == i;
      }
    }
  }

  lemma {:induction false} RejectionsFaithful(os: seq<Outcome>)
    ensures Faithful(Rejections(os), os)
    decreases |os|
  {
    if os != [] {
      var zs, z := os[..|os| - 1], os[|os| - 1];
      RejectionsFaithful(zs);
      FaithfulSnoc(Rejections(zs), zs, z);
      assert os == zs + [z];
    }
  }

  // ---------------------------------------------------------------------------------------------
  // The operations
  // ---------------------------------------------------------------------------------------------

  class LedgerClient {
    var ledger: State

    constructor (l: State)
      ensures ledger == l
    {
      ledger := l;
    }

    /** One request: the whole batch is applied in order, and the failures come back. */
    method CreateTransfers(ts: seq<Transfer>) returns (rejections: seq<Rejection>)
      modifies this
      ensures ledger == Run(old(ledger), ts)
      ensures rejections == Rejections(Outcomes(old(ledger), ts))
    {
      rejections := [];
      for i := 0 to |ts|
        invariant ledger == Run(old(ledger), ts[..i])
        invariant rejections == Rejections(Outcomes(old(ledger), ts[..i]))
      {
        var step := Apply(ledger, ts[i]);
        assert ts[..i + 1][..i] == ts[..i];
        ghost var os := Outcomes(old(ledger), ts[..i]);
        assert Outcomes(old(ledger), ts[..i + 1]) == os + [step.outcome];
        assert (os + [step.outcome])[..i] == os;
        ledger := step.state;
        if !step.outcome.Ok? {
          rejections := rejections + [Rejection(i, step.outcome)];
        }
      }
      assert ts[..|ts|] == ts;
    }
  }

  /** The sparse answer as a map from index to outcome. */
  method FailedByIndex(rejections: seq<Rejection>, ghost os: seq<Outcome>) returns (failed: map<nat, Outcome>)
    requires rejections == Rejections(os)
    ensures forall i :: i in failed ==> i < |os| && failed[i] == os[i] && !os[i].Ok?
    ensures forall i :: 0 <= i < |os| && !os[i].Ok? ==> i in failed
  {
    RejectionsFaithful(os);
    failed := map[];
    for k := 0 to |rejections|
      invariant forall i :: i in failed ==> i < |os| && failed[i] == os[i] && !os[i].Ok?
      invariant forall j :: 0 <= j < k ==> rejections[j].index in failed
    {
      failed := failed[rejections[k].index := rejections[k].outcome];
    }
    assert forall i :: 0 <= i < |os| && !os[i].Ok? ==> Reported(rejections, i);
  }

  /** Turns the sparse answer for `n` transfers into one result each. */
  method ClassifyAnswer(n: nat, rejections: seq<Rejection>, ghost os: seq<Outcome>)
    returns (r: Result<seq<TransferResult>>)
    requires |os| == n && rejections == Rejections(os)
    ensures r.Success? <==> AllClassifiable(os)
    ensures r.Success? ==> |r.value| == n && forall i :: 0 <= i < n ==> r.value[i] == Classify(os[i])
  {
    var failed := FailedByIndex(rejections, os);
    var results: seq<TransferResult> := [];
    for i := 0 to n
      invariant |results| == i
      invariant forall j :: 0 <= j < i ==> Classifiable(os[j]) && results[j] == Classify(os[j])
    {
      if i !in failed {
        results := results + [TransferResult(true, false, false)];
      } else if failed[i].ExceedsCredits? {
        results := results + [TransferResult(false, true, false)];
      } else if AlreadyCommitted(failed[i]) {
        results := results + [TransferResult(true, false, true)];
      } else {
        assert !Classifiable(os[i]);
        return Failure;
      }
    }
    return Success(results);
  }

  /** Submits independent posted transfers; an unexpected outcome fails the call, not the batch. */
  method SubmitBatch(client: LedgerClient, ts: seq<Transfer>) returns (r: Result<seq<TransferResult>>)
    modifies client
    ensures client.ledger == Run(old(client.ledger), ts)
    ensures r.Success? <==> AllClassifiable(Outcomes(old(client.ledger), ts))
    ensures r.Success? ==>
              && |r.value| == |ts|
              && forall i :: 0 <= i < |ts| ==> r.value[i] == Classify(Outcomes(old(client.ledger), ts)[i])
  {
    var rejections := client.CreateTransfers(ts);
    r := ClassifyAnswer(|ts|, rejections, Outcomes(old(client.ledger), ts));
  }

  datatype Meta = Meta(update: nat, isVoid: bool)

  function Metas(us: seq<GaugeUpdate>): seq<Meta> {
    if us == [] then []
    else
      var n := |us| - 1;
      Metas(us[..n]) + MetaPart(us[n], n)
  }

  function MetaPart(u: GaugeUpdate, n: nat): seq<Meta> {
    (if u.oldId.Some? then [Meta(n, true)] else []) + (if u.newAmount > 0 then [Meta(n, false)] else [])
  }

  /** A longer list of updates has the shorter one's slice in front. */
  lemma {:induction false} EarlierMetaFits(us: seq<GaugeUpdate>, k: nat)
    requires us != [] && |Metas(us[..|us| - 1])| == |GaugeBatch(us[..|us| - 1])| && |Metas(us)| == |GaugeBatch(us)|
    requires k < |Metas(us[..|us| - 1])| && MetaFits(us[..|us| - 1], k)
    ensures k < |Metas(us)| && MetaFits(us, k)
  {
    var zs := us[..|us| - 1];
    var i := Metas(zs)[k].update;
    assert zs[..i] == us[..i];
  }

  lemma {:induction false} MetaPartFits(u: GaugeUpdate, n: nat, j: nat)
    requires j < |MetaPart(u, n)|
    ensures |MetaPart(u, n)| == |VoidPart(u) + ReservePart(u)|
    ensures var m := MetaPart(u, n)[j];
            && m.update == n && m.isVoid == (VoidPart(u) + ReservePart(u))[j].kind.VoidPending?
            && (!m.isVoid ==> u.newAmount > 0 && j == |VoidPart(u)|)
  {
  }

  lemma {:induction false} LastMetaFits(us: seq<GaugeUpdate>, k: nat)
    requires us != [] && |Metas(us[..|us| - 1])| == |GaugeBatch(us[..|us| - 1])| && |Metas(us)| == |GaugeBatch(us)|
    requires |Metas(us[..|us| - 1])| <= k < |Metas(us)|
    ensures MetaFits(us, k)
  {
    var n := |us| - 1;
    var zs, z := us[..n], us[n];
    BatchSnoc(us);
    var j := k - |Metas(zs)|;
    assert Metas(us)[k] == MetaPart(z, n)[j];
    assert GaugeBatch(us)[k] == (VoidPart(z) + ReservePart(z))[j];
    MetaPartFits(z, n, j);
  }

  /** The bookkeeping slice says, for every transfer of the batch, whose it is. */
  lemma {:induction false} MetasFaithful(us: seq<GaugeUpdate>)
    ensures |Metas(us)| == |GaugeBatch(us)|
    ensures forall k :: 0 <= k < |Metas(us)| ==> MetaFits(us, k)
    decreases |us|
  {
    if us != [] {
      var zs := us[..|us| - 1];
      MetasFaithful(zs);
      forall k | 0 <= k < |Metas(us)| ensures MetaFits(us, k) {
        if k < |Metas(zs)| {
          EarlierMetaFits(us, k);
        } else {
          LastMetaFits(us, k);
        }
      }
    }
  }

  predicate MetaFits(us: seq<GaugeUpdate>, k: nat)
    requires k < |Metas(us)| == |GaugeBatch(us)|
  {
    var m := Metas(us)[k];
    && m.update < |us|
    && m.isVoid == GaugeBatch(us)[k].kind.VoidPending?
    && (!m.isVoid ==> us[m.update].newAmount > 0 && k == ReserveIndex(us, m.update))
  }

  lemma {:induction false} ReserveHasMeta(us: seq<GaugeUpdate>, i: nat)
    requires i < |us| && us[i].newAmount > 0
    ensures ReserveIndex(us, i) < |Metas(us)| && Metas(us)[ReserveIndex(us, i)] == Meta(i, false)
    decreases |us|
  {
    var n := |us| - 1;
    MetasFaithful(us[..n]);
    if i < n {
      ReserveHasMeta(us[..n], i);
      assert us[..n][..i] == us[..i];
    }
  }

  lemma {:induction false} OneMoreUpdate(us: seq<GaugeUpdate>, i: nat)
    requires i < |us|
    ensures GaugeBatch(us[..i + 1]) == GaugeBatch(us[..i]) + VoidPart(us[i]) + ReservePart(us[i])
    ensures Metas(us[..i + 1]) == Metas(us[..i])
                                  + (if us[i].oldId.Some? then [Meta(i, true)] else [])
                                  + (if us[i].newAmount > 0 then [Meta(i, false)] else [])
  {
    assert us[..i + 1][..i] == us[..i];
  }

  /** Builds the batch and the slice that remembers whose each transfer is. */
  method BuildGaugeBatch(updates: seq<GaugeUpdate>) returns (transfers: seq<Transfer>, metas: seq<Meta>)
    ensures transfers == GaugeBatch(updates)
    ensures metas == Metas(updates)
  {
    transfers, metas := [], [];
    for i := 0 to |updates|
      invariant transfers == GaugeBatch(updates[..i])
      invariant metas == Metas(updates[..i])
    {
      var u := updates[i];
      OneMoreUpdate(updates, i);
      if u.oldId.Some? {
        transfers := transfers + [VoidTransfer(u)];
        metas := metas + [Meta(i, true)];
      }
      if u.newAmount > 0 {
        transfers := transfers + [ReserveTransfer(u)];
        metas := metas + [Meta(i, false)];
      }
    }
    assert updates[..|updates|] == updates;
  }

  /** Among the rejections seen so far is the update's reservation, for lack of credits. */
  ghost predicate Exceeded(metas: seq<Meta>, seen: seq<Rejection>, i: nat) {
    exists j :: 0 <= j < |seen| && seen[j].outcome.ExceedsCredits?
                && seen[j].index < |metas| && metas[seen[j].index] == Meta(i, false)
  }

  lemma {:induction false} ExceededSnoc(metas: seq<Meta>, rs: seq<Rejection>, k: nat, i: nat)
    requires k < |rs|
    ensures Exceeded(metas, rs[..k + 1], i) <==>
            || Exceeded(metas, rs[..k], i)
            || (rs[k].outcome.ExceedsCredits? && rs[k].index < |metas| && metas[rs[k].index] == Meta(i, false))
  {
    var xs, ys := rs[..k], rs[..k + 1];
    if Exceeded(metas, xs, i) {
      var j :| 0 <= j < |xs| && xs[j].outcome.ExceedsCredits? && xs[j].index < |metas|
               && metas[xs[j].index] == Meta(i, false);
      assert ys[j] == xs[j];
    }
    assert ys[k] == rs[k];
    assert forall j :: 0 <= j < k ==> xs[j] == ys[j];
  }

  predicate RejectionsTolerated(metas: seq<Meta>, rs: seq<Rejection>)
    requires forall j :: 0 <= j < |rs| ==> rs[j].index < |metas|
  {
    forall j :: 0 <= j < |rs| ==> Tolerated(metas[rs[j].index].isVoid, rs[j].outcome)
  }

  /** Walks the sparse failures and charges each to the update it belongs to. */
  method AttributeRejections(n: nat, metas: seq<Meta>, rejections: seq<Rejection>)
    returns (ok: bool, results: seq<GaugeResult>)
    requires forall j :: 0 <= j < |rejections| ==> rejections[j].index < |metas| && !rejections[j].outcome.Ok?
    requires forall k :: 0 <= k < |metas| ==> metas[k].update < n
    ensures ok <==> RejectionsTolerated(metas, rejections)
    ensures |results| == n
    ensures ok ==> forall i :: 0 <= i < n ==>
              results[i] == if Exceeded(metas, rejections, i) then GaugeResult(None, false, true)
                            else GaugeResult(None, true, false)
  {
    results := seq(n, _ => GaugeResult(None, true, false));
    for k := 0 to |rejections|
      invariant |results| == n
      invariant forall j :: 0 <= j < k ==> Tolerated(metas[rejections[j].index].isVoid, rejections[j].outcome)
      invariant forall i :: 0 <= i < n ==>
                  results[i] == if Exceeded(metas, rejections[..k], i) then GaugeResult(None, false, true)
                                else GaugeResult(None, true, false)
    {
      var rejection := rejections[k];
      var m := metas[rejection.index];
      forall i | 0 <= i < n {
        ExceededSnoc(metas, rejections, k, i);
      }
      if rejection.outcome.ExceedsCredits? {
        if !m.isVoid {
          results := results[m.update := GaugeResult(None, false, true)];
        }
      } else if AlreadyCommitted(rejection.outcome) {
      } else if rejection.outcome.PendingTransferNotFound? || rejection.outcome.PendingTransferAlreadyVoided? {
        if !m.isVoid {
          return false, results;
        }
      } else {
        return false, results;
      }
    }
    assert rejections[..|rejections|] == rejections;
    ok := true;
  }

  /** Gives every accepted reservation its ID. */
  method AssignPendingIds(updates: seq<GaugeUpdate>, metas: seq<Meta>, classified: seq<GaugeResult>)
    returns (results: seq<GaugeResult>)
    requires metas == Metas(updates) && |classified| == |updates|
    ensures |results| == |updates|
    ensures forall i :: 0 <= i < |updates| ==>
              results[i] == if updates[i].newAmount > 0 && classified[i].accepted
                            then classified[i].(newPendingId := Some(updates[i].newId)) else classified[i]
  {
    MetasFaithful(updates);
    results := classified;
    for k := 0 to |metas|
      invariant |results| == |updates|
      invariant forall i :: 0 <= i < |updates| ==>
                  results[i] == if updates[i].newAmount > 0 && classified[i].accepted && ReserveIndex(updates, i) < k
                                then classified[i].(newPendingId := Some(updates[i].newId)) else classified[i]
    {
      var m := metas[k];
      assert MetaFits(updates, k);
      forall i | 0 <= i < |updates| && updates[i].newAmount > 0 && ReserveIndex(updates, i) == k
        ensures i == m.update && !m.isVoid
      {
        ReserveHasMeta(updates, i);
      }
      if !m.isVoid && results[m.update].accepted {
        results := results[m.update := results[m.update].(newPendingId := Some(updates[m.update].newId))];
      }
    }
    forall i | 0 <= i < |updates| && updates[i].newAmount > 0 ensures ReserveIndex(updates, i) < |metas| {
      ReserveHasMeta(updates, i);
    }
  }

  /** Turns the sparse answer for a gauge batch into one result per update. */
  method ClassifyGaugeAnswer(updates: seq<GaugeUpdate>, metas: seq<Meta>,
      rejections: seq<Rejection>, ghost os: seq<Outcome>) returns (r: Result<seq<GaugeResult>>)
    requires metas == Metas(updates) && |os| == |GaugeBatch(updates)| && rejections == Rejections(os)
    ensures r.Success? <==> AllTolerated(GaugeBatch(updates), os)
    ensures r.Success? ==> |r.value| == |updates|
    ensures r.Success? ==> forall i :: 0 <= i < |updates| ==> r.value[i] == GaugeResultAt(updates, os, i)
  {
    MetasInRange(updates, os);
    var ok, classified := AttributeRejections(|updates|, metas, rejections);
    AttributionOk(updates, os);
    if !ok {
      return Failure;
    }
    var results := AssignPendingIds(updates, metas, classified);
    forall i | 0 <= i < |updates| ensures results[i] == GaugeResultAt(updates, os, i) {
      AttributionExact(updates, os, i);
    }
    return Success(results);
  }

  /** Voids old gauge reservations and creates new ones, in one request. */
  method SubmitGaugePendingUpdates(client: LedgerClient, updates: seq<GaugeUpdate>)
    returns (r: Result<seq<GaugeResult>>)
    modifies client
    ensures client.ledger == Run(old(client.ledger), GaugeBatch(updates))
    ensures r.Success? <==> AllTolerated(GaugeBatch(updates), Outcomes(old(client.ledger), GaugeBatch(updates)))
    ensures r.Success? ==> |r.value| == |updates|
    ensures r.Success? ==> forall i :: 0 <= i < |updates| ==>
              r.value[i] == GaugeResultAt(updates, Outcomes(old(client.ledger), GaugeBatch(updates)), i)
  {
    if |updates| == 0 {
      return Success([]);
    }
    var transfers, metas := BuildGaugeBatch(updates);
    if |transfers| == 0 {
      forall i | 0 <= i < |updates| ensures updates[i].newAmount == 0 {
        ReserveIndexInBatch(updates, i);
      }
      return Success(seq(|updates|, _ => GaugeResult(None, true, false)));
    }
    var rejections := client.CreateTransfers(transfers);
    r := ClassifyGaugeAnswer(updates, metas, rejections, Outcomes(old(client.ledger), transfers));
  }

  lemma {:induction false} MetasInRange(us: seq<GaugeUpdate>, os: seq<Outcome>)
    requires |os| == |GaugeBatch(us)|
    ensures |Metas(us)| == |os|
    ensures forall j :: 0 <= j < |Rejections(os)| ==>
            Rejections(os)[j].index < |Metas(us)| && !Rejections(os)[j].outcome.Ok?
    ensures forall k :: 0 <= k < |Metas(us)| ==> Metas(us)[k].update < |us|
  {
    MetasFaithful(us);
    RejectionsFaithful(os);
    forall k | 0 <= k < |Metas(us)| ensures Metas(us)[k].update < |us| {
      assert MetaFits(us, k);
    }
  }

  /** Looking at the failures only is enough to see whether the whole batch is tolerable. */
  lemma {:induction false} AttributionOk(us: seq<GaugeUpdate>, os: seq<Outcome>)
    requires |os| == |GaugeBatch(us)| == |Metas(us)|
    requires forall j :: 0 <= j < |Rejections(os)| ==> Rejections(os)[j].index < |os|
    ensures AllTolerated(GaugeBatch(us), os) <==>
            RejectionsTolerated(Metas(us), Rejections(os))
  {
    var rs := Rejections(os);
    MetasFaithful(us);
    RejectionsFaithful(os);
    forall k | 0 <= k < |os| ensures Metas(us)[k].isVoid == GaugeBatch(us)[k].kind.VoidPending? {
      assert MetaFits(us, k);
    }
    if AllTolerated(GaugeBatch(us), os) {
      forall j | 0 <= j < |rs| ensures Tolerated(Metas(us)[rs[j].index].isVoid, rs[j].outcome) {
        assert Tolerated(GaugeBatch(us)[rs[j].index].kind.VoidPending?, os[rs[j].index]);
      }
    }
    if RejectionsTolerated(Metas(us), rs) {
      forall i | 0 <= i < |os| ensures Tolerated(GaugeBatch(us)[i].kind.VoidPending?, os[i]) {
        if !os[i].Ok? {
          assert Reported(rs, i);
          var j :| 0 <= j < |rs| && rs[j].index == i;
          assert Tolerated(Metas(us)[rs[j].index].isVoid, rs[j].outcome);
        }
      }
    }
  }

  /** An update is marked exceeded exactly when its own reservation was rejected for lack of credits. */
  lemma {:induction false} AttributionExact(us: seq<GaugeUpdate>, os: seq<Outcome>, i: nat)
    requires i < |us| && |os| == |GaugeBatch(us)|
    ensures var exceeded := Exceeded(Metas(us), Rejections(os), i);
            GaugeResultAt(us, os, i) ==
            if exceeded then GaugeResult(None, false, true)
            else if us[i].newAmount > 0 then GaugeResult(Some(us[i].newId), true, false)
            else GaugeResult(None, true, false)
  {
    var rs := Rejections(os);
    MetasFaithful(us);
    RejectionsFaithful(os);
    if Exceeded(Metas(us), rs, i) {
      var j :| 0 <= j < |rs| && rs[j].outcome.ExceedsCredits? && rs[j].index < |Metas(us)|
               && Metas(us)[rs[j].index] == Meta(i, false);
      assert MetaFits(us, rs[j].index);
    }
    if us[i].newAmount > 0 {
      ReserveHasMeta(us, i);
      var k := ReserveIndex(us, i);
      if os[k].ExceedsCredits? {
        assert Reported(rs, k);
      }
    }
  }
}
