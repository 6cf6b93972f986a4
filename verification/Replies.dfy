/** What an answer of the ledger says about the ledger, then and at any later time. */
module Replies {
  import opened Domain
  import opened TransferIds
  import opened Ledger
  import opened Transfers

  /** What outcome `o` of `t` entails for ledger `k`: committed, burnt, or its target voided. */
  predicate Entails(targets: set<TransferId>, k: State, t: Transfer, o: Outcome) {
    && (Classify(o).accepted ==> t.id in k.transfers && k.transfers[t.id].kind == t.kind)
    && (o.ExceedsCredits? ==> t.id in k.failed)
    && (t.kind.VoidPending? && t.kind.pendingId in targets && Tolerated(true, o) ==> t.kind.pendingId in k.voidedBy)
  }

  lemma {:induction false} OutcomeMeaning(l: State, t: Transfer)
    requires WellFormed(l)
    ensures Entails(l.transfers.Keys, Apply(l, t).state, t, Apply(l, t).outcome)
  {
    var s := Apply(l, t);
    if t.kind.VoidPending? && t.kind.pendingId in l.transfers && Tolerated(true, s.outcome) {
      if t.id in l.transfers {
        assert l.transfers[t.id].kind == t.kind;
      }
    }
  }

  lemma {:induction false} EntailsStays(targets: set<TransferId>, fewer: set<TransferId>, k: State, k': State,
      t: Transfer, o: Outcome)
    requires Entails(targets, k, t, o) && fewer <= targets && Extends(k, k')
    ensures Entails(fewer, k', t, o)
  {
  }

  /** An accepted transfer is committed for good; one beyond the credits is burnt for good. */
  lemma {:induction false} AnswerIsFinal(l: State, ts: seq<Transfer>, i: nat, since: seq<Transfer>)
    requires Valid(l) && i < |ts|
    ensures Entails(l.transfers.Keys, Run(Run(l, ts), since), ts[i], Outcomes(l, ts)[i])
    ensures Valid(Run(Run(l, ts), since))
  {
    var a, b := ts[..i], ts[..i + 1];
    OutcomesByIndex(l, ts, i);
    RunValid(l, a);
    RunExtends(l, a);
    OutcomeMeaning(Run(l, a), ts[i]);
    assert b[..i] == a;
    assert Run(l, b) == Apply(Run(l, a), ts[i]).state;
    FromPrefixOn(l, ts, i + 1, since);
    EntailsStays(Run(l, a).transfers.Keys, l.transfers.Keys, Run(l, b), Run(Run(l, ts), since), ts[i],
                 Outcomes(l, ts)[i]);
  }

  lemma {:induction false} FromPrefixOn(l: State, ts: seq<Transfer>, n: nat, since: seq<Transfer>)
    requires Valid(l) && n <= |ts|
    ensures Extends(Run(l, ts[..n]), Run(Run(l, ts), since))
    ensures Valid(Run(Run(l, ts), since))
  {
    RunValid(l, ts[..n]);
    RunExtends(Run(l, ts[..n]), ts[n..]);
    assert ts[..n] + ts[n..] == ts;
    RunConcat(l, ts[..n], ts[n..]);
    RunValid(l, ts);
    RunExtends(Run(l, ts), since);
    RunValid(Run(l, ts), since);
  }

  lemma {:induction false} StepSaysWhatHappened(l: State, t: Transfer)
    requires WellFormed(l) && Classifiable(Apply(l, t).outcome)
    ensures var x, k := Classify(Apply(l, t).outcome), Apply(l, t).state;
            && (x.alreadyExists <==> t.id in l.transfers)
            && (x.accepted <==> t.id in k.transfers)
            && (x.exceedsCredits <==> t.id in k.failed)
  {
  }

  /**
   * What a request that succeeds tells its caller about each transfer, repeats included: it is
   * called existing exactly when its ID was committed before its turn came, accepted exactly
   * when its ID is committed in the end, and beyond the credits exactly when its ID is burnt.
   */
  lemma {:induction false} AnswerSaysWhatHappened(l: State, ts: seq<Transfer>, i: nat)
    requires Valid(l) && i < |ts| && AllClassifiable(Outcomes(l, ts))
    ensures var x, id := Classify(Outcomes(l, ts)[i]), ts[i].id;
            && (x.alreadyExists <==> id in Run(l, ts[..i]).transfers)
            && (x.accepted <==> id in Run(l, ts).transfers)
            && (x.exceedsCredits <==> id in Run(l, ts).failed)
  {
    var k := Run(l, ts[..i]);
    StepAt(l, ts, i);
    RunValid(l, ts[..i]);
    StepSaysWhatHappened(k, ts[i]);
    FromPrefixOn(l, ts, i + 1, []);
    DecisionStands(Apply(k, ts[i]).state, Run(Run(l, ts), []), ts[i].id);
  }

  lemma {:induction false} StepAt(l: State, ts: seq<Transfer>, i: nat)
    requires i < |ts|
    ensures var k := Run(l, ts[..i]);
            Outcomes(l, ts)[i] == Apply(k, ts[i]).outcome && Run(l, ts[..i + 1]) == Apply(k, ts[i]).state
  {
    OutcomesByIndex(l, ts, i);
    assert ts[..i + 1][..i] == ts[..i];
  }

  lemma {:induction false} DecisionStands(k: State, k': State, id: TransferId)
    requires Extends(k, k') && Valid(k') && (id in k.transfers || id in k.failed)
    ensures id in k.transfers <==> id in k'.transfers
    ensures id in k.failed <==> id in k'.failed
  {
  }

  lemma {:induction false} IdleOutcomes(l: State, ts: seq<Transfer>, i: nat)
    requires WellFormed(l) && i < |ts|
    requires forall t :: t in ts ==> Settled(l, t) && t.debit in l.accounts && t.credit in l.accounts
    ensures Outcomes(l, ts)[i] == Apply(l, ts[i]).outcome
  {
    OutcomesByIndex(l, ts, i);
    SettledBatchIsIdle(l, ts[..i]);
  }

  /**
   * The code takes a repeat for a duplicate: it is of the same kind, and its accounts or its
   * amount differ or else nothing does. What differs in its user data alone is not recognised.
   */
  predicate Recognised(t: Transfer, e: Transfer) {
    && t.kind == e.kind
    && (|| t.debit != e.debit || t.credit != e.credit
        || (!t.kind.VoidPending? && t.amount != e.amount)
        || (t.userData128 == e.userData128 && t.userData64 == e.userData64))
  }

  /** The ID is committed, and the code takes this transfer for a duplicate of it. */
  predicate Recorded(l: State, t: Transfer) {
    t.id in l.transfers && Recognised(t, l.transfers[t.id])
  }

  lemma {:induction false} RetryOfOne(l: State, t: Transfer)
    requires WellFormed(l) && Settled(l, t) && Routable(t) && !t.kind.VoidPending?
    ensures Classifiable(Apply(l, t).outcome) <==> Recorded(l, t)
    ensures Recorded(l, t) ==> Classify(Apply(l, t).outcome) == TransferResult(true, false, true)
  {
  }

  lemma {:induction false} RetryOfSettled(l: State, ts: seq<Transfer>)
    requires WellFormed(l)
    requires forall t :: t in ts ==>
             Settled(l, t) && Routable(t) && !t.kind.VoidPending? && t.debit in l.accounts && t.credit in l.accounts
    ensures AllClassifiable(Outcomes(l, ts)) <==> forall t :: t in ts ==> Recorded(l, t)
    ensures forall i :: 0 <= i < |ts| && Recorded(l, ts[i]) ==>
            Classify(Outcomes(l, ts)[i]) == TransferResult(true, false, true)
  {
    var os := Outcomes(l, ts);
    forall i | 0 <= i < |ts|
      ensures Classifiable(os[i]) <==> Recorded(l, ts[i])
      ensures Recorded(l, ts[i]) ==> Classify(os[i]) == TransferResult(true, false, true)
    {
      IdleOutcomes(l, ts, i);
      RetryOfOne(l, ts[i]);
    }
    if AllClassifiable(os) {
      forall t | t in ts ensures Recorded(l, t) {
        var i :| 0 <= i < |ts| && ts[i] == t;
      }
    }
  }

  /**
   * A usage or allocation request that was delivered before, seen again after anything else:
   * the answer is a success exactly when each of its transfers stands committed. One rejected
   * transfer makes every later attempt fail.
   */
  lemma {:induction false} RetrySucceedsIffRecorded(l: State, ts: seq<Transfer>, since: seq<Transfer>)
    requires Valid(l)
    requires forall t :: t in ts ==>
             Routable(t) && !t.kind.VoidPending? && t.debit in l.accounts && t.credit in l.accounts
    ensures var k := Run(Run(l, ts), since);
            && Run(k, ts) == k
            && (AllClassifiable(Outcomes(k, ts)) <==> forall t :: t in ts ==> Recorded(k, t))
            && forall i :: 0 <= i < |ts| && Recorded(k, ts[i]) ==>
                Classify(Outcomes(k, ts)[i]) == TransferResult(true, false, true)
  {
    var k := Run(Run(l, ts), since);
    RedeliveryIsIdle(l, ts, since, ts);
    RunValid(l, ts);
    RunValid(Run(l, ts), since);
    SettledSince(l, ts, since);
    RetryOfSettled(k, ts);
  }

  lemma {:induction false} SettledSince(l: State, ts: seq<Transfer>, since: seq<Transfer>)
    requires Valid(l)
    ensures var k := Run(Run(l, ts), since);
            k.accounts.Keys == l.accounts.Keys && forall t :: t in ts ==> Settled(k, t)
  {
    var k := Run(Run(l, ts), since);
    RunValid(l, ts);
    RunSettles(l, ts);
    RunExtends(l, ts);
    RunExtends(Run(l, ts), since);
    forall t | t in ts ensures Settled(k, t) {
      SettledStays(Run(l, ts), k, t);
    }
  }

  lemma {:induction false} VoidsOnlyItsTarget(l: State, t: Transfer, id: TransferId)
    requires WellFormed(l) && id !in l.voidedBy && t.kind != VoidPending(id)
    ensures id !in Apply(l, t).state.voidedBy
  {
  }

  lemma {:induction false} VoidsOnlyTargets(l: State, ts: seq<Transfer>, id: TransferId)
    requires id !in l.voidedBy
    requires forall t :: t in ts ==> t.kind != VoidPending(id)
    requires Valid(l)
    ensures id !in Run(l, ts).voidedBy
    decreases |ts|
  {
    if ts != [] {
      VoidsOnlyTargets(l, ts[..|ts| - 1], id);
      RunValid(l, ts[..|ts| - 1]);
      VoidsOnlyItsTarget(Run(l, ts[..|ts| - 1]), ts[|ts| - 1], id);
    }
  }

  /** The result of update `i`, in terms of ledger `k`. */
  predicate ResultStands(targets: set<TransferId>, k: State, u: GaugeUpdate, r: GaugeResult) {
    && (r.newPendingId.Some? ==>
        r.newPendingId.value == u.newId && u.newId in k.transfers && k.transfers[u.newId].kind == Pending)
    && (r.newPendingId.None? ==> u.newAmount == 0 || u.newId in k.failed)
    && (r.newPendingId.Some? ==> u.newAmount > 0)
    && (r.exceedsCredits <==> u.newAmount > 0 && r.newPendingId.None?)
    && (u.oldId.Some? && u.oldId.value in targets ==> u.oldId.value in k.voidedBy)
  }

  /**
   * What of a gauge request is tolerated, under an ID that was not used: any reservation, and a
   * void whose target is unknown, or is a reservation between the same accounts, open or not.
   */
  lemma {:induction false} NewIdToleratedIff(l: State, t: Transfer)
    requires WellFormed(l) && Routable(t) && t.debit in l.accounts && t.credit in l.accounts
    requires t.id !in l.transfers && t.id !in l.failed
    ensures Tolerated(t.kind.VoidPending?, Apply(l, t).outcome) <==>
            (t.kind.VoidPending? && t.kind.pendingId in l.transfers ==>
               var p := l.transfers[t.kind.pendingId];
               p.kind.Pending? && p.debit == t.debit && p.credit == t.credit)
  {
  }

  /** Under an ID that was used: a repeat that the code recognises, and nothing once the ID is burnt. */
  lemma {:induction false} UsedIdToleratedIff(l: State, t: Transfer)
    requires t.id in l.transfers || t.id in l.failed
    ensures Tolerated(t.kind.VoidPending?, Apply(l, t).outcome) <==> Recorded(l, t)
  {
  }

  lemma {:induction false} ReservationStands(l: State, us: seq<GaugeUpdate>, i: nat)
    requires Valid(l) && i < |us| && us[i].newAmount > 0
    requires AllTolerated(GaugeBatch(us), Outcomes(l, GaugeBatch(us)))
    ensures var k, id := Run(l, GaugeBatch(us)), us[i].newId;
            if GaugeResultAt(us, Outcomes(l, GaugeBatch(us)), i).exceedsCredits then id in k.failed
            else id in k.transfers && k.transfers[id].kind == Pending
  {
    var ts := GaugeBatch(us);
    var os, j := Outcomes(l, ts), ReserveIndex(us, i);
    ReserveIndexInBatch(us, i);
    AnswerIsFinal(l, ts, j, []);
    assert Tolerated(ts[j].kind.VoidPending?, os[j]);
  }

  lemma {:induction false} OldIsVoided(l: State, us: seq<GaugeUpdate>, i: nat)
    requires Valid(l) && i < |us| && us[i].oldId.Some? && us[i].oldId.value in l.transfers
    requires AllTolerated(GaugeBatch(us), Outcomes(l, GaugeBatch(us)))
    ensures us[i].oldId.value in Run(l, GaugeBatch(us)).voidedBy
  {
    var ts := GaugeBatch(us);
    var os, j := Outcomes(l, ts), |GaugeBatch(us[..i])|;
    ReserveIndexInBatch(us, i);
    AnswerIsFinal(l, ts, j, []);
    assert Tolerated(ts[j].kind.VoidPending?, os[j]);
  }

  lemma {:induction false} GaugeResultStands(l: State, us: seq<GaugeUpdate>, i: nat)
    requires Valid(l) && i < |us|
    requires AllTolerated(GaugeBatch(us), Outcomes(l, GaugeBatch(us)))
    ensures ResultStands(l.transfers.Keys, Run(l, GaugeBatch(us)), us[i],
                         GaugeResultAt(us, Outcomes(l, GaugeBatch(us)), i))
  {
    if us[i].newAmount > 0 {
      ReservationStands(l, us, i);
    }
    if us[i].oldId.Some? && us[i].oldId.value in l.transfers {
      OldIsVoided(l, us, i);
    }
  }

  /**
   * For any list of gauge updates, whatever mix of old reservations and amounts: update `i` is
   * given an ID exactly when it asked for a reservation and that reservation is on the ledger,
   * and then, unless something voids it, the reservation is open. It is reported beyond the
   * credits exactly when its ID is burnt. Its old reservation is gone.
   */
  lemma {:induction false} GaugeAnswersTheRightUpdate(l: State, us: seq<GaugeUpdate>, i: nat)
    requires Valid(l) && i < |us|
    requires AllTolerated(GaugeBatch(us), Outcomes(l, GaugeBatch(us)))
    ensures var k := Run(l, GaugeBatch(us));
            var r := GaugeResultAt(us, Outcomes(l, GaugeBatch(us)), i);
            && (r.newPendingId.Some? <==> us[i].newAmount > 0 && us[i].newId in k.transfers)
            && (r.newPendingId.Some? ==> r.newPendingId == Some(us[i].newId))
            && (r.newPendingId.Some? && us[i].newId !in l.voidedBy
                && (forall u :: u in us ==> u.oldId != Some(us[i].newId)) ==>
                  IsOpen(k, us[i].newId))
            && (r.exceedsCredits <==> us[i].newAmount > 0 && us[i].newId in k.failed)
            && (r.accepted <==> !r.exceedsCredits)
            && (us[i].oldId.Some? && us[i].oldId.value in l.transfers ==> us[i].oldId.value in k.voidedBy)
  {
    RunValid(l, GaugeBatch(us));
    GaugeResultStands(l, us, i);
    if us[i].newId !in l.voidedBy && (forall u :: u in us ==> u.oldId != Some(us[i].newId)) {
      BatchVoidsOldOnly(l, us, us[i].newId);
    }
  }

  lemma {:induction false} BatchVoidsOldOnly(l: State, us: seq<GaugeUpdate>, id: TransferId)
    requires Valid(l) && id !in l.voidedBy && forall u :: u in us ==> u.oldId != Some(id)
    ensures id !in Run(l, GaugeBatch(us)).voidedBy
  {
    forall t | t in GaugeBatch(us) ensures t.kind != VoidPending(id) {
      BatchMembers(us, t);
    }
    VoidsOnlyTargets(l, GaugeBatch(us), id);
  }

  // ---------------------------------------------------------------------------------------------
  // When a request of posted transfers can be classified
  // ---------------------------------------------------------------------------------------------

  /** What becomes of an ID is decided by the transfers that carry it. */
  lemma {:induction false} OthersKeepId(l: State, ts: seq<Transfer>, id: TransferId)
    requires Valid(l) && forall t :: t in ts ==> t.id != id
    ensures id in Run(l, ts).failed <==> id in l.failed
    ensures id in Run(l, ts).transfers <==> id in l.transfers
    decreases |ts|
  {
    if ts != [] {
      var zs, z := ts[..|ts| - 1], ts[|ts| - 1];
      OthersKeepId(l, zs, id);
      RunValid(l, zs);
      OtherKeepsId(Run(l, zs), z, id);
    }
  }

  lemma {:induction false} OtherKeepsId(l: State, t: Transfer, id: TransferId)
    requires WellFormed(l) && t.id != id
    ensures id in Apply(l, t).state.failed <==> id in l.failed
    ensures id in Apply(l, t).state.transfers <==> id in l.transfers
  {
  }

  /** The first transfer of the request under the ID of transfer `i`, searched from `k` on. */
  function FirstUseFrom(ts: seq<Transfer>, i: nat, k: nat): (f: nat)
    requires k <= i < |ts| && forall j :: 0 <= j < k ==> ts[j].id != ts[i].id
    ensures f <= i && ts[f].id == ts[i].id
    ensures forall j :: 0 <= j < f ==> ts[j].id != ts[i].id
    decreases i - k
  {
    if ts[k].id == ts[i].id then k else FirstUseFrom(ts, i, k + 1)
  }

  function FirstUse(ts: seq<Transfer>, i: nat): nat
    requires i < |ts|
  {
    FirstUseFrom(ts, i, 0)
  }

  /** A wallet that is to pay for the transfer has enough left. */
  predicate HasRoom(l: State, t: Transfer) {
    t.debit in l.accounts && t.debit.Wallet? ==>
      var b := l.accounts[t.debit];
      b.debitsPending + b.debitsPosted + t.amount <= b.creditsPosted
  }

  /**
   * Transfer `i` is not burnt. If its ID is committed, the ledger calls it the same or differently
   * sized; otherwise, if it repeats an earlier transfer of the request, the wallet had room for
   * that one when its turn came, and it does not differ in anything but its size.
   */
  predicate CleanAt(l: State, ts: seq<Transfer>, i: nat)
    requires i < |ts|
  {
    var t, f := ts[i], FirstUse(ts, i);
    && t.id !in l.failed
    && (t.id in l.transfers ==> Recognised(t, l.transfers[t.id]))
    && (t.id !in l.transfers && f < i ==>
          HasRoom(Run(l, ts[..f]), ts[f]) && Recognised(t, ts[f]))
  }

  predicate AllClean(l: State, ts: seq<Transfer>) {
    forall i :: 0 <= i < |ts| ==> CleanAt(l, ts, i)
  }

  /** A request of posted transfers between known accounts. */
  predicate PostsBetween(l: State, ts: seq<Transfer>) {
    forall t :: t in ts ==> Routable(t) && !t.kind.VoidPending? && t.debit in l.accounts && t.credit in l.accounts
  }

  /** The first use of an unknown ID decides it, and the decision stands. */
  lemma {:induction false} FirstUseDecides(l: State, ts: seq<Transfer>, f: nat, i: nat)
    requires Valid(l) && PostsBetween(l, ts) && f < i <= |ts|
    requires ts[f].id !in l.transfers && ts[f].id !in l.failed && forall j :: 0 <= j < f ==> ts[j].id != ts[f].id
    ensures var k := Run(l, ts[..i]);
            if !HasRoom(Run(l, ts[..f]), ts[f]) then ts[f].id in k.failed
            else ts[f].id in k.transfers && k.transfers[ts[f].id] == ts[f]
  {
    var a, b := ts[..f], ts[..f + 1];
    OthersKeepId(l, a, ts[f].id);
    RunValid(l, a);
    RunExtends(l, a);
    assert b[..f] == a && ts[..i][..f + 1] == b;
    assert Run(l, b) == Apply(Run(l, a), ts[f]).state;
    FromPrefixOn(l, ts[..i], f + 1, []);
  }

  lemma {:induction false} FirstIsClassifiable(k: State, t: Transfer)
    requires t.id !in k.transfers && t.id !in k.failed
    requires Routable(t) && !t.kind.VoidPending? && t.debit in k.accounts && t.credit in k.accounts
    ensures Classifiable(Apply(k, t).outcome)
  {
  }

  lemma {:induction false} RepeatClassifiableIff(k: State, t: Transfer, first: Transfer, room: bool)
    requires t.id == first.id && k.transfers.Keys !! k.failed
    requires if room then t.id in k.transfers && k.transfers[t.id] == first else t.id in k.failed
    ensures Classifiable(Apply(k, t).outcome) <==> room && Recognised(t, first)
  {
  }

  lemma {:induction false} ClassifiableAt(l: State, ts: seq<Transfer>, i: nat)
    requires Valid(l) && PostsBetween(l, ts) && i < |ts|
    ensures Classifiable(Outcomes(l, ts)[i]) <==> CleanAt(l, ts, i)
  {
    var t, f, k := ts[i], FirstUse(ts, i), Run(l, ts[..i]);
    OutcomesByIndex(l, ts, i);
    RunValid(l, ts[..i]);
    RunExtends(l, ts[..i]);
    if t.id in l.transfers || t.id in l.failed {
      KnownIdClassifiableIff(l, k, t);
    } else if f < i {
      FirstUseDecides(l, ts, f, i);
      RepeatClassifiableIff(k, t, ts[f], HasRoom(Run(l, ts[..f]), ts[f]));
    } else {
      OthersKeepId(l, ts[..i], t.id);
      FirstIsClassifiable(k, t);
    }
  }

  lemma {:induction false} KnownIdClassifiableIff(l: State, k: State, t: Transfer)
    requires Extends(l, k) && Valid(k) && (t.id in l.transfers || t.id in l.failed)
    ensures Classifiable(Apply(k, t).outcome) <==> Recorded(l, t)
    ensures t.id in l.failed ==> t.id !in l.transfers
  {
  }

  /** A request of posted transfers can be classified exactly when all of them are clean. */
  lemma {:induction false} ClassifiableIffClean(l: State, ts: seq<Transfer>)
    requires Valid(l) && PostsBetween(l, ts)
    ensures AllClassifiable(Outcomes(l, ts)) <==> AllClean(l, ts)
  {
    forall i | 0 <= i < |ts| ensures Classifiable(Outcomes(l, ts)[i]) <==> CleanAt(l, ts, i) {
      ClassifiableAt(l, ts, i);
    }
  }
}
