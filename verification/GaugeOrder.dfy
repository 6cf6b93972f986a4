/**
 * Gauge updates of one flush are submitted in whatever order a map iteration gives. When does
 * the order not matter?
 */
module GaugeOrder {
  import opened Domain
  import opened TransferIds
  import opened Maps
  import opened Ledger
  import opened Transfers

  function GaugeWallet(tenant: Uuid): Account {
    Wallet(tenant, ActiveNodes)
  }

  /** The amount that an update gives back. */
  function OldAmount(l: State, u: GaugeUpdate): nat {
    if u.oldId.Some? && u.oldId.value in l.transfers then l.transfers[u.oldId.value].amount else 0
  }

  /** Its IDs are unused, and what it replaces is an open reservation of the same wallet. */
  predicate Fresh(l: State, tenant: Uuid, u: GaugeUpdate) {
    && u.tenant == tenant
    && u.voidId != u.newId
    && u.voidId !in l.transfers && u.voidId !in l.failed
    && u.newId !in l.transfers && u.newId !in l.failed
    && (u.oldId.Some? ==>
          && IsOpen(l, u.oldId.value)
          && l.transfers[u.oldId.value].debit == GaugeWallet(tenant)
          && l.transfers[u.oldId.value].credit == Sink(ActiveNodes))
  }

  predicate Apart(u: GaugeUpdate, v: GaugeUpdate) {
    OwnIds(u, v) && (u.oldId.Some? ==> u.oldId != v.oldId)
  }

  /** A flush's updates before any of them is submitted. */
  ghost predicate Ready(l: State, tenant: Uuid, us: set<GaugeUpdate>) {
    && Valid(l)
    && GaugeWallet(tenant) in l.accounts && Sink(ActiveNodes) in l.accounts
    && (forall u :: u in us ==> Fresh(l, tenant, u))
    && (forall u, v :: u in us && v in us && u != v ==> Apart(u, v))
  }

  /** An order in which the updates may be submitted: each of them once. */
  ghost predicate IsEnumeration(ps: seq<GaugeUpdate>, us: set<GaugeUpdate>) {
    && (forall i, j :: 0 <= i < j < |ps| ==> ps[i] != ps[j])
    && (forall u :: u in ps <==> u in us)
  }

  predicate Committed(l: State, u: GaugeUpdate) {
    && (u.oldId.Some? ==> u.voidId in l.transfers)
    && (u.newAmount > 0 ==> u.newId in l.transfers)
  }

  /** Every void and every reservation was accepted. */
  ghost predicate AcceptsAll(l: State, ps: seq<GaugeUpdate>) {
    forall u :: u in ps ==> Committed(Run(l, GaugeBatch(ps)), u)
  }

  // ---------------------------------------------------------------------------------------------
  // One update
  // ---------------------------------------------------------------------------------------------

  ghost predicate ReadyOne(l: State, tenant: Uuid, u: GaugeUpdate) {
    Ready(l, tenant, {u})
  }

  function AfterVoid(l: State, u: GaugeUpdate): State {
    if u.oldId.Some? && u.oldId.value in l.transfers then
      l.(transfers := l.transfers[u.voidId := VoidTransfer(u).(amount := OldAmount(l, u))],
         voidedBy := l.voidedBy[u.oldId.value := u.voidId])
    else l
  }

  lemma {:induction false} VoidStep(l: State, tenant: Uuid, u: GaugeUpdate)
    requires ReadyOne(l, tenant, u)
    ensures var k := Run(l, VoidPart(u));
            var w := GaugeWallet(tenant);
            && Valid(k)
            && k == AfterVoid(l, u).(accounts := k.accounts)
            && k.accounts.Keys == l.accounts.Keys
            && k.accounts[w] == l.accounts[w].(debitsPending := l.accounts[w].debitsPending - OldAmount(l, u))
  {
    RunValid(l, VoidPart(u));
    RunExtends(l, VoidPart(u));
    assert Fresh(l, tenant, u);
    if u.oldId.Some? {
      var t := VoidTransfer(u);
      assert [t][..0] == [];
      assert Run(l, [t]) == Apply(l, t).state;
      assert Apply(l, t).state == Release(l, t, l.transfers[u.oldId.value]);
    }
  }

  lemma {:induction false} ReserveStep(l: State, tenant: Uuid, u: GaugeUpdate)
    requires Valid(l) && GaugeWallet(tenant) in l.accounts && Sink(ActiveNodes) in l.accounts
    requires u.tenant == tenant && u.newId !in l.transfers && u.newId !in l.failed
    ensures var k := Run(l, ReservePart(u));
            var w := GaugeWallet(tenant);
            var b := l.accounts[w];
            && Valid(k)
            && k.accounts.Keys == l.accounts.Keys
            && k.voidedBy == l.voidedBy
            && if u.newAmount == 0 then k == l
               else if b.debitsPending + b.debitsPosted + u.newAmount <= b.creditsPosted then
                 && k.accounts[w] == b.(debitsPending := b.debitsPending + u.newAmount)
                 && k.transfers == l.transfers[u.newId := ReserveTransfer(u)]
                 && k.failed == l.failed
               else k == l.(failed := l.failed + {u.newId})
  {
    RunValid(l, ReservePart(u));
    RunExtends(l, ReservePart(u));
    if u.newAmount > 0 {
      var t := ReserveTransfer(u);
      assert [t][..0] == [];
      assert Run(l, [t]) == Apply(l, t).state;
    }
  }

  /** The whole effect of one update, given what its wallet holds. */
  lemma {:induction false} UpdateStep(l: State, tenant: Uuid, u: GaugeUpdate)
    requires ReadyOne(l, tenant, u)
    ensures var k := Run(l, VoidPart(u) + ReservePart(u));
            var w := GaugeWallet(tenant);
            var b := l.accounts[w];
            var used := b.debitsPending - OldAmount(l, u) + u.newAmount;
            var v := AfterVoid(l, u);
            && Valid(k)
            && k.accounts.Keys == l.accounts.Keys
            && k.accounts[w].debitsPosted == b.debitsPosted && k.accounts[w].creditsPosted == b.creditsPosted
            && k.voidedBy == v.voidedBy
            && (used + b.debitsPosted <= b.creditsPosted ==> Committed(k, u))
            && (Committed(k, u) ==>
                  && k.accounts[w].debitsPending == used
                  && k.failed == l.failed
                  && k.transfers == if u.newAmount > 0 then v.transfers[u.newId := ReserveTransfer(u)] else v.transfers)
            && k.transfers.Keys <= l.transfers.Keys + {u.voidId, u.newId}
            && k.failed <= l.failed + {u.newId}
  {
    assert Fresh(l, tenant, u);
    var m := Run(l, VoidPart(u));
    VoidStep(l, tenant, u);
    RunConcat(l, VoidPart(u), ReservePart(u));
    ReserveStep(m, tenant, u);
  }

  /** What is still to come stays ready while others are processed. */
  lemma {:induction false} ReadyStays(l: State, tenant: Uuid, u: GaugeUpdate, rest: set<GaugeUpdate>)
    requires u !in rest && Ready(l, tenant, rest + {u})
    ensures ReadyOne(l, tenant, u)
    ensures Ready(Run(l, VoidPart(u) + ReservePart(u)), tenant, rest)
    ensures forall v :: v in rest ==> OldAmount(Run(l, VoidPart(u) + ReservePart(u)), v) == OldAmount(l, v)
  {
    var ts := VoidPart(u) + ReservePart(u);
    var k := Run(l, ts);
    UpdateStep(l, tenant, u);
    RunExtends(l, ts);
    forall v | v in rest ensures Fresh(k, tenant, v) && OldAmount(k, v) == OldAmount(l, v) {
      assert Fresh(l, tenant, v) && Apart(v, u);
    }
  }

  lemma {:induction false} ReadyAfterOne(l: State, tenant: Uuid, us: set<GaugeUpdate>, done: set<GaugeUpdate>,
      u: GaugeUpdate)
    requires u in us && u !in done && Ready(l, tenant, us - done)
    ensures var k := Run(l, VoidPart(u) + ReservePart(u));
            var w := GaugeWallet(tenant);
            && Ready(k, tenant, us - (done + {u}))
            && k.accounts.Keys == l.accounts.Keys
            && k.accounts[w].debitsPosted == l.accounts[w].debitsPosted
            && k.accounts[w].creditsPosted == l.accounts[w].creditsPosted
            && forall v :: v in us - (done + {u}) ==> OldAmount(k, v) == OldAmount(l, v)
  {
    var rest := us - (done + {u});
    assert rest + {u} == us - done;
    ReadyStays(l, tenant, u, rest);
    UpdateStep(l, tenant, u);
  }

  // ---------------------------------------------------------------------------------------------
  // Sums over sets of updates
  // ---------------------------------------------------------------------------------------------

  /** How much an update changes the reserved total. */
  function Delta(l: State): GaugeUpdate -> int {
    (u: GaugeUpdate) => u.newAmount - OldAmount(l, u)
  }

  function Increase(l: State): GaugeUpdate -> int {
    (u: GaugeUpdate) => if u.newAmount > OldAmount(l, u) then u.newAmount - OldAmount(l, u) else 0
  }

  /** No part of the updates can raise the total by more than all increases together. */
  lemma {:induction false} PartWithinIncreases(l: State, part: set<GaugeUpdate>, us: set<GaugeUpdate>)
    requires part <= us
    ensures SetSum(part, Delta(l)) <= SetSum(us, Increase(l))
    decreases |us|
  {
    if us == {} {
      assert part == {};
    } else {
      var u :| u in us;
      PartWithinIncreases(l, part - {u}, us - {u});
      SetSumRemove(us, Increase(l), u);
      if u in part {
        SetSumRemove(part, Delta(l), u);
      } else {
        assert part - {u} == part;
      }
    }
  }

  function Risers(l: State, us: set<GaugeUpdate>): set<GaugeUpdate> {
    set u | u in us && u.newAmount > OldAmount(l, u)
  }

  lemma {:induction false} RisersAdd(l: State, us: set<GaugeUpdate>, u: GaugeUpdate)
    requires u !in us
    ensures Risers(l, us + {u}) == Risers(l, us) + if u.newAmount > OldAmount(l, u) then {u} else {}
  {
  }

  lemma {:induction false} RisersTotalAdd(l: State, us: set<GaugeUpdate>, u: GaugeUpdate)
    requires u !in us
    ensures SetSum(Risers(l, us + {u}), Delta(l)) == SetSum(Risers(l, us), Delta(l)) + Increase(l)(u)
  {
    RisersAdd(l, us, u);
    if u.newAmount > OldAmount(l, u) {
      SetSumAdd(Risers(l, us), Delta(l), u);
    } else {
      assert Risers(l, us + {u}) == Risers(l, us);
    }
  }

  /** The updates that raise their reservation reach that bound. */
  lemma {:induction false} RisersReachIncreases(l: State, us: set<GaugeUpdate>)
    ensures SetSum(Risers(l, us), Delta(l)) == SetSum(us, Increase(l))
    decreases |us|
  {
    if us == {} {
      assert Risers(l, us) == {};
    } else {
      var u :| u in us;
      var rest := us - {u};
      RisersReachIncreases(l, rest);
      assert rest + {u} == us;
      SetSumAdd(rest, Increase(l), u);
      RisersTotalAdd(l, rest, u);
    }
  }

  // ---------------------------------------------------------------------------------------------
  // A whole order
  // ---------------------------------------------------------------------------------------------

  function Elements(ps: seq<GaugeUpdate>): set<GaugeUpdate> {
    set u | u in ps
  }

  ghost predicate OrderOfPart(ps: seq<GaugeUpdate>, us: set<GaugeUpdate>) {
    IsEnumeration(ps, Elements(ps)) && Elements(ps) <= us
  }

  lemma {:induction false} SplitLast(ps: seq<GaugeUpdate>, us: set<GaugeUpdate>)
    requires OrderOfPart(ps, us) && ps != []
    ensures var zs, z := ps[..|ps| - 1], ps[|ps| - 1];
            && OrderOfPart(zs, us) && z !in Elements(zs) && z in us
            && Elements(ps) == Elements(zs) + {z}
            && GaugeBatch(ps) == GaugeBatch(zs) + (VoidPart(z) + ReservePart(z))
  {
    var zs, z := ps[..|ps| - 1], ps[|ps| - 1];
    assert ps == zs + [z];
    assert forall i :: 0 <= i < |zs| ==> zs[i] == ps[i];
  }

  /** After any part of an order, the rest is ready and the wallet's posted columns are untouched. */
  lemma {:induction false} WalkReady(l: State, tenant: Uuid, us: set<GaugeUpdate>, ps: seq<GaugeUpdate>)
    requires Ready(l, tenant, us) && OrderOfPart(ps, us)
    ensures var k := Run(l, GaugeBatch(ps));
            var w := GaugeWallet(tenant);
            && Ready(k, tenant, us - Elements(ps))
            && k.accounts.Keys == l.accounts.Keys
            && k.accounts[w].debitsPosted == l.accounts[w].debitsPosted
            && k.accounts[w].creditsPosted == l.accounts[w].creditsPosted
            && forall v :: v in us - Elements(ps) ==> OldAmount(k, v) == OldAmount(l, v)
    decreases |ps|
  {
    if ps == [] {
      assert us - Elements(ps) == us;
    } else {
      var zs, z := ps[..|ps| - 1], ps[|ps| - 1];
      SplitLast(ps, us);
      WalkReady(l, tenant, us, zs);
      RunConcat(l, GaugeBatch(zs), VoidPart(z) + ReservePart(z));
      ReadyAfterOne(Run(l, GaugeBatch(zs)), tenant, us, Elements(zs), z);
    }
  }

  /** What was accepted at the end was accepted when its turn came. */
  lemma {:induction false} PrefixAccepted(l: State, tenant: Uuid, us: set<GaugeUpdate>, ps: seq<GaugeUpdate>)
    requires Ready(l, tenant, us) && OrderOfPart(ps, us) && ps != [] && AcceptsAll(l, ps)
    ensures AcceptsAll(l, ps[..|ps| - 1])
  {
    var zs, z := ps[..|ps| - 1], ps[|ps| - 1];
    var k := Run(l, GaugeBatch(zs));
    SplitLast(ps, us);
    WalkReady(l, tenant, us, zs);
    RunConcat(l, GaugeBatch(zs), VoidPart(z) + ReservePart(z));
    assert Ready(k, tenant, {z});
    UpdateStep(k, tenant, z);
    forall u | u in zs ensures Committed(k, u) {
      assert u in ps && u in us && Apart(u, z);
      assert Committed(Run(l, GaugeBatch(ps)), u);
    }
  }

  /** An order that accepts everything moves the reserved total by the sum of the changes. */
  lemma {:induction false} WalkPending(l: State, tenant: Uuid, us: set<GaugeUpdate>, ps: seq<GaugeUpdate>)
    requires Ready(l, tenant, us) && OrderOfPart(ps, us) && AcceptsAll(l, ps)
    ensures GaugeWallet(tenant) in Run(l, GaugeBatch(ps)).accounts
    ensures Run(l, GaugeBatch(ps)).accounts[GaugeWallet(tenant)].debitsPending
            == l.accounts[GaugeWallet(tenant)].debitsPending + SetSum(Elements(ps), Delta(l))
    decreases |ps|
  {
    WalkReady(l, tenant, us, ps);
    if ps == [] {
      assert Elements(ps) == {};
    } else {
      var zs, z := ps[..|ps| - 1], ps[|ps| - 1];
      var k := Run(l, GaugeBatch(zs));
      SplitLast(ps, us);
      PrefixAccepted(l, tenant, us, ps);
      WalkPending(l, tenant, us, zs);
      WalkReady(l, tenant, us, zs);
      RunConcat(l, GaugeBatch(zs), VoidPart(z) + ReservePart(z));
      assert Ready(k, tenant, {z});
      UpdateStep(k, tenant, z);
      assert Committed(Run(l, GaugeBatch(ps)), z);
      SetSumAdd(Elements(zs), Delta(l), z);
    }
  }

  /** The wallet has room for every increase at once, before anything is given back. */
  ghost predicate RoomForAllIncreases(l: State, tenant: Uuid, us: set<GaugeUpdate>)
    requires GaugeWallet(tenant) in l.accounts
  {
    var b := l.accounts[GaugeWallet(tenant)];
    b.debitsPending + b.debitsPosted + SetSum(us, Increase(l)) <= b.creditsPosted
  }

  lemma {:induction false} RoomAcceptsAll(l: State, tenant: Uuid, us: set<GaugeUpdate>, ps: seq<GaugeUpdate>)
    requires Ready(l, tenant, us) && RoomForAllIncreases(l, tenant, us) && OrderOfPart(ps, us)
    ensures AcceptsAll(l, ps)
    decreases |ps|
  {
    if ps != [] {
      var zs, z := ps[..|ps| - 1], ps[|ps| - 1];
      var k, k' := Run(l, GaugeBatch(zs)), Run(l, GaugeBatch(ps));
      SplitLast(ps, us);
      RoomAcceptsAll(l, tenant, us, zs);
      WalkReady(l, tenant, us, zs);
      WalkPending(l, tenant, us, zs);
      RunConcat(l, GaugeBatch(zs), VoidPart(z) + ReservePart(z));
      assert Ready(k, tenant, {z});
      UpdateStep(k, tenant, z);
      SetSumAdd(Elements(zs), Delta(l), z);
      PartWithinIncreases(l, Elements(ps), us);
      RunExtends(k, VoidPart(z) + ReservePart(z));
      forall u | u in ps ensures Committed(k', u) {
        if u != z {
          assert u in zs;
          assert Committed(k, u);
        }
      }
    }
  }

  /** Some order of a set of updates. */
  ghost function SomeOrder(us: set<GaugeUpdate>): (ps: seq<GaugeUpdate>)
    ensures IsEnumeration(ps, us)
  {
    if us == {} then []
    else
      var u :| u in us;
      SomeOrder(us - {u}) + [u]
  }

  ghost predicate EveryOrderAccepts(l: State, us: set<GaugeUpdate>) {
    forall ps :: IsEnumeration(ps, us) ==> AcceptsAll(l, ps)
  }

  lemma {:induction false} PrefixesAccepted(l: State, tenant: Uuid, us: set<GaugeUpdate>, ps: seq<GaugeUpdate>, n: nat)
    requires Ready(l, tenant, us) && OrderOfPart(ps, us) && AcceptsAll(l, ps) && n <= |ps|
    ensures OrderOfPart(ps[..n], us) && AcceptsAll(l, ps[..n])
    decreases |ps|
  {
    if n < |ps| {
      SplitLast(ps, us);
      PrefixAccepted(l, tenant, us, ps);
      PrefixesAccepted(l, tenant, us, ps[..|ps| - 1], n);
      assert ps[..|ps| - 1][..n] == ps[..n];
    } else {
      assert ps[..n] == ps;
    }
  }

  lemma {:induction false} JoinOrders(xs: seq<GaugeUpdate>, ys: seq<GaugeUpdate>, us: set<GaugeUpdate>,
      part: set<GaugeUpdate>)
    requires part <= us && IsEnumeration(xs, part) && IsEnumeration(ys, us - part)
    ensures IsEnumeration(xs + ys, us)
  {
    var ps := xs + ys;
    forall i, j | 0 <= i < j < |ps| ensures ps[i] != ps[j] {
      if i < |xs| <= j {
        assert xs[i] in xs && ys[j - |xs|] in ys;
      }
    }
  }

  /** The order that submits all increases first needs room for all of them. */
  lemma {:induction false} IncreasesFirst(l: State, tenant: Uuid, us: set<GaugeUpdate>)
    requires Ready(l, tenant, us) && EveryOrderAccepts(l, us)
    ensures RoomForAllIncreases(l, tenant, us)
  {
    var risers := Risers(l, us);
    var xs, ys := SomeOrder(risers), SomeOrder(us - risers);
    JoinOrders(xs, ys, us, risers);
    assert Elements(xs + ys) == us && Elements(xs) == risers;
    PrefixesAccepted(l, tenant, us, xs + ys, |xs|);
    assert (xs + ys)[..|xs|] == xs;
    WalkReady(l, tenant, us, xs);
    WalkPending(l, tenant, us, xs);
    RisersReachIncreases(l, us);
    assert WithinCredits(Run(l, GaugeBatch(xs)).accounts[GaugeWallet(tenant)]);
  }

  /**
   * Every order of the clusters gets every update accepted exactly when there is room for all
   * increases together. That the new total fits is not enough.
   */
  lemma {:induction false} EveryOrderAcceptsIffRoom(l: State, tenant: Uuid, us: set<GaugeUpdate>)
    requires Ready(l, tenant, us)
    ensures EveryOrderAccepts(l, us) <==> RoomForAllIncreases(l, tenant, us)
  {
    if RoomForAllIncreases(l, tenant, us) {
      forall ps | IsEnumeration(ps, us) ensures AcceptsAll(l, ps) {
        assert Elements(ps) == us;
        RoomAcceptsAll(l, tenant, us, ps);
      }
    }
    if EveryOrderAccepts(l, us) {
      IncreasesFirst(l, tenant, us);
    }
  }

  // ---------------------------------------------------------------------------------------------
  // And then the order leaves no trace
  // ---------------------------------------------------------------------------------------------

  /** `m` is `base` together with the entries, and nothing else. */
  ghost predicate Adds<K(!new), V>(base: map<K, V>, m: map<K, V>, entries: set<(K, V)>) {
    && (forall k :: k in base ==> k in m && m[k] == base[k])
    && (forall e :: e in entries ==> e.0 in m && m[e.0] == e.1)
    && (forall k :: k in m && k !in base ==> (k, m[k]) in entries)
  }

  ghost function Entries<K, V>(m: map<K, V>): set<(K, V)> {
    set k | k in m :: (k, m[k])
  }

  lemma {:induction false} AddsOne<K(!new), V>(base: map<K, V>, m: map<K, V>, entries: set<(K, V)>, p: map<K, V>)
    requires Adds(base, m, entries) && m.Keys !! p.Keys
    ensures Adds(base, m + p, entries + Entries(p))
  {
  }

  lemma {:induction false} AddsUnique<K(!new), V>(base: map<K, V>, m: map<K, V>, n: map<K, V>, entries: set<(K, V)>)
    requires Adds(base, m, entries) && Adds(base, n, entries)
    ensures m == n
  {
    assert forall k :: k in m ==> k in n && n[k] == m[k];
    assert forall k :: k in n ==> k in m;
  }

  /** The transfers that an accepted update adds to the ledger. */
  function Records(l: State, u: GaugeUpdate): map<TransferId, Transfer> {
    (if u.oldId.Some? then map[u.voidId := VoidTransfer(u).(amount := OldAmount(l, u))] else map[])
    + (if u.newAmount > 0 then map[u.newId := ReserveTransfer(u)] else map[])
  }

  function VoidRecords(u: GaugeUpdate): map<TransferId, TransferId> {
    if u.oldId.Some? then map[u.oldId.value := u.voidId] else map[]
  }

  ghost function AllRecords(l: State, us: set<GaugeUpdate>): set<(TransferId, Transfer)> {
    set u, e | u in us && e in Entries(Records(l, u)) :: e
  }

  ghost function AllVoidRecords(us: set<GaugeUpdate>): set<(TransferId, TransferId)> {
    set u, e | u in us && e in Entries(VoidRecords(u)) :: e
  }

  ghost predicate RecordsExactly(l: State, k: State, us: set<GaugeUpdate>) {
    && Adds(l.transfers, k.transfers, AllRecords(l, us))
    && Adds(l.voidedBy, k.voidedBy, AllVoidRecords(us))
    && k.failed == l.failed
  }

  lemma {:induction false} RecordsAdd(l: State, k: State, k': State, us: set<GaugeUpdate>, u: GaugeUpdate)
    requires RecordsExactly(l, k, us)
    requires k.transfers.Keys !! Records(l, u).Keys && k.voidedBy.Keys !! VoidRecords(u).Keys
    requires k'.transfers == k.transfers + Records(l, u)
    requires k'.voidedBy == k.voidedBy + VoidRecords(u)
    requires k'.failed == k.failed
    ensures RecordsExactly(l, k', us + {u})
  {
    assert AllRecords(l, us + {u}) == AllRecords(l, us) + Entries(Records(l, u));
    assert AllVoidRecords(us + {u}) == AllVoidRecords(us) + Entries(VoidRecords(u));
    AddsOne(l.transfers, k.transfers, AllRecords(l, us), Records(l, u));
    AddsOne(l.voidedBy, k.voidedBy, AllVoidRecords(us), VoidRecords(u));
  }

  lemma {:induction false} MergeOne<K, V>(m: map<K, V>, a: K, x: V)
    ensures m[a := x] == m + map[a := x]
  {
  }

  lemma {:induction false} MergeTwo<K, V>(m: map<K, V>, a: K, x: V, b: K, y: V)
    ensures m[a := x][b := y] == m + (map[a := x] + map[b := y])
  {
  }

  lemma {:induction false} AfterVoidRecords(l: State, k: State, tenant: Uuid, u: GaugeUpdate)
    requires Fresh(k, tenant, u) && OldAmount(k, u) == OldAmount(l, u)
    ensures var v := AfterVoid(k, u).transfers;
            (if u.newAmount > 0 then v[u.newId := ReserveTransfer(u)] else v) == k.transfers + Records(l, u)
    ensures AfterVoid(k, u).voidedBy == k.voidedBy + VoidRecords(u)
  {
    if u.oldId.Some? {
      var t := VoidTransfer(u).(amount := OldAmount(l, u));
      MergeOne(k.voidedBy, u.oldId.value, u.voidId);
      MergeOne(k.transfers, u.voidId, t);
      MergeTwo(k.transfers, u.voidId, t, u.newId, ReserveTransfer(u));
      assert map[u.voidId := t] + map[] == map[u.voidId := t];
    } else {
      MergeOne(k.transfers, u.newId, ReserveTransfer(u));
      var e: map<TransferId, Transfer> := map[];
      assert e + map[u.newId := ReserveTransfer(u)] == map[u.newId := ReserveTransfer(u)];
      assert k.transfers + (e + e) == k.transfers;
      assert k.voidedBy + map[] == k.voidedBy;
    }
  }

  lemma {:induction false} RecordsAreNew(l: State, k: State, tenant: Uuid, u: GaugeUpdate)
    requires Fresh(k, tenant, u)
    ensures k.transfers.Keys !! Records(l, u).Keys && k.voidedBy.Keys !! VoidRecords(u).Keys
  {
    assert Records(l, u).Keys <= {u.voidId, u.newId};
  }

  lemma {:induction false} StepAddsRecords(l: State, k: State, tenant: Uuid, u: GaugeUpdate)
    requires ReadyOne(k, tenant, u) && OldAmount(k, u) == OldAmount(l, u)
    requires Committed(Run(k, VoidPart(u) + ReservePart(u)), u)
    ensures var k' := Run(k, VoidPart(u) + ReservePart(u));
            && k'.transfers == k.transfers + Records(l, u)
            && k'.voidedBy == k.voidedBy + VoidRecords(u)
            && k'.failed == k.failed
    ensures k.transfers.Keys !! Records(l, u).Keys && k.voidedBy.Keys !! VoidRecords(u).Keys
  {
    UpdateStep(k, tenant, u);
    assert Fresh(k, tenant, u);
    AfterVoidRecords(l, k, tenant, u);
    RecordsAreNew(l, k, tenant, u);
  }

  lemma {:induction false} WalkRecords(l: State, tenant: Uuid, us: set<GaugeUpdate>, ps: seq<GaugeUpdate>)
    requires Ready(l, tenant, us) && OrderOfPart(ps, us) && AcceptsAll(l, ps)
    ensures RecordsExactly(l, Run(l, GaugeBatch(ps)), Elements(ps))
    decreases |ps|
  {
    if ps != [] {
      var zs, z := ps[..|ps| - 1], ps[|ps| - 1];
      var k, k' := Run(l, GaugeBatch(zs)), Run(l, GaugeBatch(ps));
      SplitLast(ps, us);
      PrefixAccepted(l, tenant, us, ps);
      WalkRecords(l, tenant, us, zs);
      WalkReady(l, tenant, us, zs);
      RunConcat(l, GaugeBatch(zs), VoidPart(z) + ReservePart(z));
      assert Ready(k, tenant, {z});
      assert Committed(k', z);
      StepAddsRecords(l, k, tenant, z);
      RecordsAdd(l, k, k', Elements(zs), z);
    }
  }

  lemma {:induction false} SameRecordsSameLedger(l: State, k: State, m: State, us: set<GaugeUpdate>)
    requires RecordsExactly(l, k, us) && RecordsExactly(l, m, us)
    requires Valid(k) && Valid(m) && k.accounts.Keys == m.accounts.Keys
    ensures k == m
  {
    AddsUnique(l.transfers, k.transfers, m.transfers, AllRecords(l, us));
    AddsUnique(l.voidedBy, k.voidedBy, m.voidedBy, AllVoidRecords(us));
    LedgerIsDetermined(k, m);
  }

  /** With that room, all orders end in one and the same ledger. */
  lemma {:induction false} OrderLeavesNoTrace(l: State, tenant: Uuid, us: set<GaugeUpdate>, ps: seq<GaugeUpdate>,
      qs: seq<GaugeUpdate>)
    requires Ready(l, tenant, us) && RoomForAllIncreases(l, tenant, us)
    requires IsEnumeration(ps, us) && IsEnumeration(qs, us)
    ensures Run(l, GaugeBatch(ps)) == Run(l, GaugeBatch(qs))
  {
    assert Elements(ps) == us && Elements(qs) == us;
    RoomAcceptsAll(l, tenant, us, ps);
    RoomAcceptsAll(l, tenant, us, qs);
    WalkRecords(l, tenant, us, ps);
    WalkRecords(l, tenant, us, qs);
    WalkReady(l, tenant, us, ps);
    WalkReady(l, tenant, us, qs);
    SameRecordsSameLedger(l, Run(l, GaugeBatch(ps)), Run(l, GaugeBatch(qs)), us);
  }
}
