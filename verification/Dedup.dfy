/** The gateway's deduplication: a high-water mark per cluster, with eviction of idle clusters. */
module Dedup {
  import opened Domain

  datatype Mark = Mark(seqNo: nat, seenAt: int)

  type Marks = map<Uuid, Mark>

  predicate Covers(m: Marks, c: Uuid, q: nat) {
    c in m && q <= m[c].seqNo
  }

  function Checked(m: Marks, c: Uuid, q: nat, now: int): Marks {
    if Covers(m, c, q) then m else m[c := Mark(q, now)]
  }

  /** Marks that were last raised before the cutoff are forgotten. */
  function Pruned(m: Marks, cutoff: int): Marks {
    m - (set c | c in m && m[c].seenAt < cutoff)
  }

  /** The in-memory deduplicator. The lock makes each call one step; the clock is passed in. */
  class MemDedup {
    var entries: Marks
    const ttl: nat

    constructor (ttl: nat)
      ensures entries == map[] && this.ttl == ttl
    {
      this.ttl := ttl;
      entries := map[];
    }

    method IsDuplicate(cluster: Uuid, seqNo: nat, now: int) returns (duplicate: bool)
      modifies this
      ensures duplicate <==> Covers(old(entries), cluster, seqNo)
      ensures entries == Checked(old(entries), cluster, seqNo, now)
    {
      if cluster !in entries || seqNo > entries[cluster].seqNo {
        entries := entries[cluster := Mark(seqNo, now)];
        return false;
      }
      return true;
    }

    /** One tick of the prune loop. */
    method Prune(now: int)
      modifies this
      ensures entries == Pruned(old(entries), now - ttl)
    {
      var cutoff := now - ttl;
      entries := WithoutExpired(entries, cutoff);
    }
  }

  method WithoutExpired(entries: Marks, cutoff: int) returns (kept: Marks)
    ensures kept == Pruned(entries, cutoff)
  {
    kept := entries;
    var rest := entries.Keys;
    while rest != {}
      invariant rest <= entries.Keys
      invariant forall c :: c in kept ==> c in entries && kept[c] == entries[c]
      invariant forall c :: c in entries && c in rest ==> c in kept
      invariant forall c :: c in entries && c !in rest ==> (c in kept <==> entries[c].seenAt >= cutoff)
      decreases |rest|
    {
      var c :| c in rest;
      if entries[c].seenAt < cutoff {
        kept := kept - {c};
      }
      rest := rest - {c};
    }
  }

  // ---------------------------------------------------------------------------------------------
  // Histories of calls
  // ---------------------------------------------------------------------------------------------

  datatype Call = Check(cluster: Uuid, seqNo: nat, now: int) | Tick(now: int)

  function After(ttl: nat, calls: seq<Call>): Marks {
    if calls == [] then map[]
    else
      var m := After(ttl, calls[..|calls| - 1]);
      match calls[|calls| - 1]
      case Check(c, q, now) => Checked(m, c, q, now)
      case Tick(now) => Pruned(m, now - ttl)
  }

  /** The answer that the call at `i` got. */
  predicate AnsweredDuplicate(ttl: nat, calls: seq<Call>, i: nat)
    requires i < |calls| && calls[i].Check?
  {
    Covers(After(ttl, calls[..i]), calls[i].cluster, calls[i].seqNo)
  }

  ghost predicate ClockRuns(calls: seq<Call>) {
    forall i, j :: 0 <= i < j < |calls| ==> calls[i].now <= calls[j].now
  }

  lemma {:induction false} AfterSnoc(ttl: nat, calls: seq<Call>, j: nat)
    requires j < |calls|
    ensures After(ttl, calls[..j + 1]) ==
            match calls[j]
            case Check(c, q, now) => Checked(After(ttl, calls[..j]), c, q, now)
            case Tick(now) => Pruned(After(ttl, calls[..j]), now - ttl)
  {
    assert calls[..j + 1][..j] == calls[..j];
  }

  /** From a check on: the mark stands and is recent, or more than the TTL has passed. */
  lemma {:induction false} MarkStands(ttl: nat, calls: seq<Call>, i: nat, j: nat)
    requires ClockRuns(calls) && i < j <= |calls| && calls[i].Check? && !AnsweredDuplicate(ttl, calls, i)
    ensures var m, c := After(ttl, calls[..j]), calls[i].cluster;
            || (Covers(m, c, calls[i].seqNo) && m[c].seenAt >= calls[i].now)
            || calls[j - 1].now - calls[i].now > ttl
    decreases j
  {
    AfterSnoc(ttl, calls, j - 1);
    if i < j - 1 {
      MarkStands(ttl, calls, i, j - 1);
    }
  }

  /** Two "not a duplicate" answers for the same number of a cluster are more than the TTL apart. */
  lemma {:induction false} LetThroughAgainOnlyAfterTtl(ttl: nat, calls: seq<Call>, i: nat, j: nat)
    requires ClockRuns(calls) && i < j < |calls| && calls[i].Check? && calls[j].Check?
    requires calls[i].cluster == calls[j].cluster && calls[i].seqNo == calls[j].seqNo
    requires !AnsweredDuplicate(ttl, calls, i) && !AnsweredDuplicate(ttl, calls, j)
    ensures calls[j].now - calls[i].now > ttl
  {
    MarkStands(ttl, calls, i, j);
  }

  // ---------------------------------------------------------------------------------------------
  // When a cluster is held, by the times of the calls
  // ---------------------------------------------------------------------------------------------

  /** Call `i` is a check of cluster `c` that was answered "not a duplicate". */
  predicate LetThrough(ttl: nat, calls: seq<Call>, i: nat, c: Uuid)
    requires i < |calls|
  {
    calls[i].Check? && calls[i].cluster == c && !AnsweredDuplicate(ttl, calls, i)
  }

  /** No tick after `i` and before `j` came later than the TTL allows. */
  ghost predicate TicksInTime(ttl: nat, calls: seq<Call>, i: nat, j: nat)
    requires i < j <= |calls|
  {
    forall k :: i < k < j && calls[k].Tick? ==> calls[k].now - calls[i].now <= ttl
  }

  /** Call `i` is the last before `j` that let a heartbeat of `c` through. */
  ghost predicate LastLetThrough(ttl: nat, calls: seq<Call>, i: nat, j: nat, c: Uuid)
    requires i < j <= |calls|
  {
    LetThrough(ttl, calls, i, c) && forall k :: i < k < j ==> !LetThrough(ttl, calls, k, c)
  }

  /** Before call `j`: the last heartbeat that was let through is recent enough for every tick since. */
  ghost predicate Held(ttl: nat, calls: seq<Call>, j: nat, c: Uuid)
    requires j <= |calls|
  {
    exists i :: 0 <= i < j && LastLetThrough(ttl, calls, i, j, c) && TicksInTime(ttl, calls, i, j)
  }

  /** The stamp is the time of the last heartbeat that was let through. */
  lemma {:induction false} StampIsOfLast(ttl: nat, calls: seq<Call>, j: nat, c: Uuid) returns (i: nat)
    requires j <= |calls| && c in After(ttl, calls[..j])
    ensures i < j && LastLetThrough(ttl, calls, i, j, c) && TicksInTime(ttl, calls, i, j)
    ensures After(ttl, calls[..j])[c].seenAt == calls[i].now
    decreases j
  {
    AfterSnoc(ttl, calls, j - 1);
    assert calls[..j - 1 + 1] == calls[..j];
    if LetThrough(ttl, calls, j - 1, c) {
      i := j - 1;
    } else {
      i := StampIsOfLast(ttl, calls, j - 1, c);
    }
  }

  lemma {:induction false} LastStays(ttl: nat, calls: seq<Call>, i: nat, j: nat, c: Uuid)
    requires i < j <= |calls| && LastLetThrough(ttl, calls, i, j, c) && TicksInTime(ttl, calls, i, j)
    ensures c in After(ttl, calls[..j]) && After(ttl, calls[..j])[c].seenAt == calls[i].now
    decreases j
  {
    AfterSnoc(ttl, calls, j - 1);
    assert calls[..j - 1 + 1] == calls[..j];
    if i < j - 1 {
      assert !LetThrough(ttl, calls, j - 1, c);
      LastStays(ttl, calls, i, j - 1, c);
    }
  }

  /**
   * A cluster has a mark exactly while every tick since its last heartbeat that was let through
   * came within the TTL of it; duplicates do not count.
   */
  lemma {:induction false} MarkedIffHeld(ttl: nat, calls: seq<Call>, j: nat, c: Uuid)
    requires j <= |calls|
    ensures c in After(ttl, calls[..j]) <==> Held(ttl, calls, j, c)
  {
    if c in After(ttl, calls[..j]) {
      var i := StampIsOfLast(ttl, calls, j, c);
    }
    if Held(ttl, calls, j, c) {
      var i :| 0 <= i < j && LastLetThrough(ttl, calls, i, j, c) && TicksInTime(ttl, calls, i, j);
      LastStays(ttl, calls, i, j, c);
    }
  }

  lemma {:induction false} RecentStays(ttl: nat, calls: seq<Call>, i: nat, j: nat, c: Uuid)
    requires ClockRuns(calls) && i < j <= |calls| && LetThrough(ttl, calls, i, c) && TicksInTime(ttl, calls, i, j)
    ensures c in After(ttl, calls[..j]) && After(ttl, calls[..j])[c].seenAt >= calls[i].now
    decreases j
  {
    AfterSnoc(ttl, calls, j - 1);
    assert calls[..j - 1 + 1] == calls[..j];
    if i < j - 1 {
      RecentStays(ttl, calls, i, j - 1, c);
    }
  }

  /**
   * With a clock that does not go back, any heartbeat that was let through will do, not just the
   * last: a cluster has a mark exactly when some one is within the TTL of every tick since.
   */
  lemma {:induction false} MarkedIffRecent(ttl: nat, calls: seq<Call>, j: nat, c: Uuid)
    requires ClockRuns(calls) && j <= |calls|
    ensures c in After(ttl, calls[..j]) <==>
            exists i :: 0 <= i < j && LetThrough(ttl, calls, i, c) && TicksInTime(ttl, calls, i, j)
  {
    if c in After(ttl, calls[..j]) {
      var i := StampIsOfLast(ttl, calls, j, c);
    }
    if i :| 0 <= i < j && LetThrough(ttl, calls, i, c) && TicksInTime(ttl, calls, i, j) {
      RecentStays(ttl, calls, i, j, c);
    }
  }

  /** After every tick among the calls from `i` up to `j`, cluster `c` is still held. */
  ghost predicate Kept(ttl: nat, calls: seq<Call>, i: nat, j: nat, c: Uuid)
    requires j <= |calls|
  {
    forall k :: i <= k < j && calls[k].Tick? ==> Held(ttl, calls, k + 1, c)
  }

  /** A number at least as high was checked, and not forgotten since. */
  ghost predicate Remembered(ttl: nat, calls: seq<Call>, j: nat, c: Uuid, q: nat)
    requires j <= |calls|
  {
    exists i :: 0 <= i < j && Raises(calls[i], c, q) && Kept(ttl, calls, i, j, c)
  }

  predicate Raises(call: Call, c: Uuid, q: nat) {
    call.Check? && call.cluster == c && call.seqNo >= q
  }

  lemma {:induction false} RememberedNext(ttl: nat, calls: seq<Call>, j: nat, c: Uuid, q: nat)
    requires j < |calls|
    ensures Remembered(ttl, calls, j + 1, c, q) <==>
            || Raises(calls[j], c, q)
            || (Remembered(ttl, calls, j, c, q) && (calls[j].Tick? ==> Held(ttl, calls, j + 1, c)))
  {
    if Raises(calls[j], c, q) {
      assert Kept(ttl, calls, j, j + 1, c);
    }
    if Remembered(ttl, calls, j, c, q) && (calls[j].Tick? ==> Held(ttl, calls, j + 1, c)) {
      var i :| 0 <= i < j && Raises(calls[i], c, q) && Kept(ttl, calls, i, j, c);
      assert Kept(ttl, calls, i, j + 1, c);
    }
    if Remembered(ttl, calls, j + 1, c, q) && !Raises(calls[j], c, q) {
      var i :| 0 <= i < j + 1 && Raises(calls[i], c, q) && Kept(ttl, calls, i, j + 1, c);
      assert Kept(ttl, calls, i, j, c);
    }
  }

  lemma {:induction false} CoversIffRemembered(ttl: nat, calls: seq<Call>, j: nat, c: Uuid, q: nat)
    requires j <= |calls|
    ensures Covers(After(ttl, calls[..j]), c, q) <==> Remembered(ttl, calls, j, c, q)
    decreases j
  {
    if j > 0 {
      CoversIffRemembered(ttl, calls, j - 1, c, q);
      RememberedNext(ttl, calls, j - 1, c, q);
      MarkedIffHeld(ttl, calls, j, c);
      AfterSnoc(ttl, calls, j - 1);
      assert calls[..j - 1 + 1] == calls[..j];
    }
  }

  /**
   * A check is answered "duplicate" exactly when a number at least as high was checked before for
   * the cluster and the cluster was held through every tick since.
   */
  lemma {:induction false} DuplicateIffRemembered(ttl: nat, calls: seq<Call>, j: nat)
    requires j < |calls| && calls[j].Check?
    ensures AnsweredDuplicate(ttl, calls, j) <==> Remembered(ttl, calls, j, calls[j].cluster, calls[j].seqNo)
  {
    CoversIffRemembered(ttl, calls, j, calls[j].cluster, calls[j].seqNo);
  }

  // ---------------------------------------------------------------------------------------------
  // The Valkey form: the mark is a float64 score
  // ---------------------------------------------------------------------------------------------

  const TWO_53: nat := 0x20_0000_0000_0000

  /** The multiple of `unit` nearest to `n`; of two, the one with the even quotient. */
  function RoundTo(n: nat, unit: nat): nat
    requires unit > 0
  {
    var q, r := n / unit, n % unit;
    if 2 * r < unit || (2 * r == unit && q % 2 == 0) then q * unit else (q + 1) * unit
  }

  /** Conversion to float64: 53 significant bits, so the spacing doubles with the magnitude. */
  function ToFloat(n: nat, unit: nat): nat
    requires unit > 0
    decreases n - unit
  {
    if n <= TWO_53 * unit then RoundTo(n, unit) else ToFloat(n, 2 * unit)
  }

  function Score(n: nat): nat {
    ToFloat(n, 1)
  }

  lemma {:induction false} MulMonotone(a: nat, b: nat, u: nat)
    requires a <= b
    ensures a * u <= b * u
  {
  }

  lemma {:induction false} QuotientNear(n: nat, unit: nat) returns (q: nat)
    requires unit > 0
    ensures q == n / unit && q * unit <= n < (q + 1) * unit
  {
    q := n / unit;
    assert n == q * unit + n % unit;
  }

  lemma {:induction false} RoundNear(n: nat, unit: nat)
    requires unit > 0
    ensures n / unit * unit <= n < (n / unit + 1) * unit
    ensures n / unit * unit <= RoundTo(n, unit) <= (n / unit + 1) * unit
    ensures n == n / unit * unit ==> RoundTo(n, unit) == n
  {
    assert n == n / unit * unit + n % unit;
  }

  /** `m` is the multiple of `unit` nearest to `n`, of two equally near ones the even multiple. */
  ghost predicate IsNearest(m: nat, n: nat, unit: nat) {
    exists q: nat :: m == q * unit && 2 * m <= 2 * n + unit && 2 * n <= 2 * m + unit
                     && (2 * m == 2 * n + unit || 2 * n == 2 * m + unit ==> q % 2 == 0)
  }

  lemma {:induction false} RoundsToNearest(n: nat, unit: nat)
    requires unit > 0
    ensures IsNearest(RoundTo(n, unit), n, unit)
  {
    var q := QuotientNear(n, unit);
    var m := RoundTo(n, unit);
    assert n == q * unit + n % unit;
    assert (q + 1) * unit == q * unit + unit;
    if m == q * unit {
      assert IsNearest(m, n, unit);
    } else {
      assert m == (q + 1) * unit;
    }
  }

  predicate IsPowerOfTwo(u: nat) {
    u == 1 || (u > 0 && u % 2 == 0 && IsPowerOfTwo(u / 2))
  }

  /** The spacing of float64 at `n`: the least power of two that needs no more than 53 bits. */
  predicate IsSpacing(n: nat, unit: nat) {
    IsPowerOfTwo(unit) && n <= TWO_53 * unit && (unit == 1 || n > TWO_53 * (unit / 2))
  }

  lemma {:induction false} FloatIsNearest(n: nat, unit: nat) returns (u: nat)
    requires IsPowerOfTwo(unit) && (unit == 1 || n > TWO_53 * (unit / 2))
    ensures u > 0 && IsSpacing(n, u) && IsNearest(ToFloat(n, unit), n, u)
    decreases n - unit
  {
    if n <= TWO_53 * unit {
      RoundsToNearest(n, unit);
      u := unit;
    } else {
      u := FloatIsNearest(n, 2 * unit);
    }
  }

  /** A score is the sequence number rounded to the nearest float64, ties to even. */
  lemma {:induction false} ScoreIsNearest(n: nat) returns (u: nat)
    ensures u > 0 && IsSpacing(n, u) && IsNearest(Score(n), n, u)
  {
    u := FloatIsNearest(n, 1);
  }

  lemma {:induction false} RoundBetween(n: nat, unit: nat, k: nat)
    requires unit > 0
    ensures n <= k * unit ==> RoundTo(n, unit) <= k * unit
    ensures n >= k * unit ==> RoundTo(n, unit) >= k * unit
  {
    RoundNear(n, unit);
    if n / unit < k {
      MulMonotone(n / unit + 1, k, unit);
    } else {
      MulMonotone(k, n / unit, unit);
    }
  }

  lemma {:induction false} RoundSameQuotient(n: nat, m: nat, unit: nat)
    requires unit > 0 && n <= m && n / unit == m / unit
    ensures RoundTo(n, unit) <= RoundTo(m, unit)
  {
    var q := n / unit;
    assert n == q * unit + n % unit && m == q * unit + m % unit;
    MulMonotone(q, q + 1, unit);
  }

  lemma {:induction false} QuotientMonotone(n: nat, m: nat, unit: nat)
    requires unit > 0 && n <= m
    ensures n / unit <= m / unit
  {
    var q := QuotientNear(n, unit);
    var p := QuotientNear(m, unit);
    FactorsOrdered(q, p, n, m, unit);
  }

  lemma {:induction false} FactorsOrdered(q: nat, p: nat, n: nat, m: nat, unit: nat)
    requires q * unit <= n <= m < (p + 1) * unit
    ensures q <= p
  {
    if p + 1 <= q {
      MulMonotone(p + 1, q, unit);
    }
  }

  lemma {:induction false} RoundMonotone(n: nat, m: nat, unit: nat)
    requires unit > 0 && n <= m
    ensures RoundTo(n, unit) <= RoundTo(m, unit)
  {
    QuotientMonotone(n, m, unit);
    if n / unit == m / unit {
      RoundSameQuotient(n, m, unit);
    } else {
      RoundNear(n, unit);
      RoundNear(m, unit);
      MulMonotone(n / unit + 1, m / unit, unit);
    }
  }

  lemma {:induction false} FloatAtLeast(m: nat, unit: nat)
    requires unit > 0 && m > TWO_53 * unit
    ensures ToFloat(m, 2 * unit) >= TWO_53 * unit
    decreases m - unit
  {
    if m <= TWO_53 * (2 * unit) {
      RoundBetween(m, 2 * unit, TWO_53 / 2);
    } else {
      FloatAtLeast(m, 2 * unit);
    }
  }

  lemma {:induction false} FloatMonotone(n: nat, m: nat, unit: nat)
    requires unit > 0 && n <= m
    ensures ToFloat(n, unit) <= ToFloat(m, unit)
    decreases m - unit
  {
    if m <= TWO_53 * unit {
      RoundMonotone(n, m, unit);
    } else if n <= TWO_53 * unit {
      RoundBetween(n, unit, TWO_53);
      FloatAtLeast(m, unit);
    } else {
      FloatMonotone(n, m, 2 * unit);
    }
  }

  /** The score of the one member of a cluster's sorted set, raised only by a greater one. */
  function ScoreChecked(scores: map<Uuid, nat>, c: Uuid, q: nat): map<Uuid, nat> {
    if ScoreCovers(scores, c, q) then scores else scores[c := Score(q)]
  }

  predicate ScoreCovers(scores: map<Uuid, nat>, c: Uuid, q: nat) {
    c in scores && Score(q) <= scores[c]
  }

  /** No expiry: only checks. */
  function ScoresAfter(checks: seq<(Uuid, nat)>): map<Uuid, nat> {
    if checks == [] then map[]
    else ScoreChecked(ScoresAfter(checks[..|checks| - 1]), checks[|checks| - 1].0, checks[|checks| - 1].1)
  }

  function HighestAfter(checks: seq<(Uuid, nat)>): map<Uuid, nat> {
    if checks == [] then map[]
    else
      var m, c, q := HighestAfter(checks[..|checks| - 1]), checks[|checks| - 1].0, checks[|checks| - 1].1;
      if c in m && q <= m[c] then m else m[c := q]
  }

  /** For all sequence numbers, the score is the rounded high-water mark. */
  lemma {:induction false} ScoreIsRoundedMark(checks: seq<(Uuid, nat)>)
    ensures ScoresAfter(checks).Keys == HighestAfter(checks).Keys
    ensures forall c :: c in HighestAfter(checks) ==> ScoresAfter(checks)[c] == Score(HighestAfter(checks)[c])
    decreases |checks|
  {
    if checks != [] {
      var zs, c, q := checks[..|checks| - 1], checks[|checks| - 1].0, checks[|checks| - 1].1;
      ScoreIsRoundedMark(zs);
      var m := HighestAfter(zs);
      if c in m {
        if q <= m[c] {
          FloatMonotone(q, m[c], 1);
        } else {
          FloatMonotone(m[c], q, 1);
        }
      }
    }
  }

  lemma {:induction false} ExactUpTo53Bits(n: nat)
    ensures n <= TWO_53 ==> Score(n) == n
    ensures n > TWO_53 ==> Score(n) >= TWO_53
  {
    if n > TWO_53 {
      FloatAtLeast(n, 1);
    }
  }

  /** Both forms answer the next check alike. */
  predicate FormsAgree(checks: seq<(Uuid, nat)>, c: Uuid, q: nat) {
    ScoreCovers(ScoresAfter(checks), c, q) <==> c in HighestAfter(checks) && q <= HighestAfter(checks)[c]
  }

  /** Whatever was checked before, the Valkey form calls a duplicate all that the high-water mark does. */
  lemma {:induction false} ValkeyNeverLetsMoreThrough(checks: seq<(Uuid, nat)>, c: Uuid, q: nat)
    ensures c in HighestAfter(checks) && q <= HighestAfter(checks)[c] ==> ScoreCovers(ScoresAfter(checks), c, q)
  {
    ScoreIsRoundedMark(checks);
    if c in HighestAfter(checks) && q <= HighestAfter(checks)[c] {
      FloatMonotone(q, HighestAfter(checks)[c], 1);
    }
  }

  predicate AllUpTo(checks: seq<(Uuid, nat)>, bound: nat) {
    forall i :: 0 <= i < |checks| ==> checks[i].1 <= bound
  }

  lemma {:induction false} HighestUpTo(checks: seq<(Uuid, nat)>, bound: nat)
    requires AllUpTo(checks, bound)
    ensures forall c :: c in HighestAfter(checks) ==> HighestAfter(checks)[c] <= bound
    decreases |checks|
  {
    if checks != [] {
      HighestUpTo(checks[..|checks| - 1], bound);
    }
  }

  lemma {:induction false} ValkeyAgrees(checks: seq<(Uuid, nat)>, c: Uuid, q: nat)
    requires AllUpTo(checks, TWO_53) && q <= TWO_53
    ensures FormsAgree(checks, c, q)
  {
    ScoreIsRoundedMark(checks);
    HighestUpTo(checks, TWO_53);
    ExactUpTo53Bits(q);
    if c in HighestAfter(checks) {
      ExactUpTo53Bits(HighestAfter(checks)[c]);
    }
  }

  /** Just above two to the fifty-third, a new number is taken for a duplicate. */
  lemma {:induction false} ValkeyRoundsAway(c: Uuid)
    ensures ScoreCovers(ScoresAfter([(c, TWO_53)]), c, TWO_53 + 1)
    ensures !FormsAgree([(c, TWO_53)], c, TWO_53 + 1)
  {
    var checks := [(c, TWO_53)];
    assert checks[..0] == [];
    assert ScoresAfter(checks) == map[c := Score(TWO_53)];
    assert Score(TWO_53 + 1) == ToFloat(TWO_53 + 1, 2) == RoundTo(TWO_53 + 1, 2) == TWO_53;
    assert HighestAfter(checks) == map[c := TWO_53];
  }

  /** The forms agree on all histories of numbers up to a bound exactly when it is at most two to the fifty-third. */
  lemma {:induction false} ValkeyAgreesIff(bound: nat)
    ensures (forall checks, c, q: nat :: AllUpTo(checks, bound) && q <= bound ==> FormsAgree(checks, c, q))
            <==> bound <= TWO_53
  {
    if bound <= TWO_53 {
      forall checks, c, q: nat | AllUpTo(checks, bound) && q <= bound ensures FormsAgree(checks, c, q) {
        ValkeyAgrees(checks, c, q);
      }
    } else {
      var c := Uuid([]);
      ValkeyRoundsAway(c);
      assert AllUpTo([(c, TWO_53)], bound);
    }
  }
}
