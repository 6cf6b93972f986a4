/**
 * The heartbeat streams of a gateway: each cluster's stream is deduplicated, buffered in a bounded
 * queue, and drained by one dispatcher that repeats a signal until it is confirmed or given up.
 */
module Gateway {
  import opened Domain
  import opened Dedup
  import opened Workflow
  import opened Protocol
  import opened Continuity

  const QUEUE_CAPACITY: nat := 256

  /** One cluster's stream: what waits in its channel, and what its dispatcher is sending. */
  datatype Stream = Stream(queue: seq<Heartbeat>, sending: Option<Heartbeat>)

  /** `delivered` lists signals as they reach the workflow, repeated sends included. */
  datatype Gate = Gate(marks: Marks, streams: map<Uuid, Stream>, delivered: seq<Heartbeat>)

  /**
   * `fits` tells whether room showed up in the channel before the timeout. A send may deliver its
   * signal and still be repeated, because its reply was lost; `Settle` ends it, confirmed or not.
   * `Close` ends a stream for good: nothing that it holds is sent any more.
   */
  datatype Action =
    | Receive(hb: Heartbeat, now: int, fits: bool)
    | Take(cluster: Uuid)
    | Send(cluster: Uuid)
    | Settle(cluster: Uuid)
    | Close(cluster: Uuid)
    | PruneTick(now: int)

  function StreamOf(g: Gate, c: Uuid): Stream {
    if c in g.streams then g.streams[c] else Stream([], None)
  }

  function OnReceive(g: Gate, hb: Heartbeat, now: int, fits: bool): Gate {
    if Covers(g.marks, hb.cluster, hb.seqNo) then g
    else
      var st := StreamOf(g, hb.cluster);
      var g' := g.(marks := Checked(g.marks, hb.cluster, hb.seqNo, now));
      if fits && |st.queue| < QUEUE_CAPACITY
      then g'.(streams := g.streams[hb.cluster := st.(queue := st.queue + [hb])])
      else g'
  }

  function Act(ttl: nat, g: Gate, a: Action): Gate {
    match a
    case Receive(hb, now, fits) => OnReceive(g, hb, now, fits)
    case Take(c) =>
      var st := StreamOf(g, c);
      if st.sending.None? && st.queue != []
      then g.(streams := g.streams[c := Stream(st.queue[1..], Some(st.queue[0]))]) else g
    case Send(c) =>
      var st := StreamOf(g, c);
      if st.sending.Some? then g.(delivered := g.delivered + [st.sending.value]) else g
    case Settle(c) => g.(streams := g.streams[c := StreamOf(g, c).(sending := None)])
    case Close(c) => g.(streams := g.streams[c := Stream([], None)])
    case PruneTick(now) => g.(marks := Pruned(g.marks, now - ttl))
  }

  function NewGate(): Gate {
    Gate(map[], map[], [])
  }

  function Continue(ttl: nat, g: Gate, actions: seq<Action>): Gate {
    if actions == [] then g
    else Act(ttl, Continue(ttl, g, actions[..|actions| - 1]), actions[|actions| - 1])
  }

  /** Cluster `c` is never forgotten: its mark outlives every prune. */
  ghost predicate NeverEvicted(ttl: nat, g: Gate, actions: seq<Action>, c: Uuid) {
    forall i | 0 <= i < |actions| && actions[i].PruneTick? && c in Continue(ttl, g, actions[..i]).marks ::
      c in Continue(ttl, g, actions[..i + 1]).marks
  }

  // ---------------------------------------------------------------------------------------------
  // Order
  // ---------------------------------------------------------------------------------------------

  /** Numbers do not go back for `c`, and one number means one heartbeat. */
  ghost predicate InOrderFor(hbs: seq<Heartbeat>, c: Uuid) {
    forall i, j | 0 <= i < j < |hbs| && hbs[i].cluster == c && hbs[j].cluster == c ::
      hbs[i].seqNo <= hbs[j].seqNo && (hbs[i].seqNo == hbs[j].seqNo ==> hbs[i] == hbs[j])
  }

  predicate Below(hbs: seq<Heartbeat>, hb: Heartbeat) {
    forall x | x in hbs && x.cluster == hb.cluster :: x.seqNo <= hb.seqNo && (x.seqNo == hb.seqNo ==> x == hb)
  }

  function Sending(st: Stream): seq<Heartbeat> {
    if st.sending.Some? then [st.sending.value] else []
  }

  /** What was delivered and what a cluster's stream still holds, in the order of delivery. */
  function Pipeline(g: Gate, c: Uuid): seq<Heartbeat> {
    g.delivered + (Sending(StreamOf(g, c)) + StreamOf(g, c).queue)
  }

  ghost predicate Covered(hbs: seq<Heartbeat>, marks: Marks, c: Uuid) {
    forall x :: x in hbs && x.cluster == c ==> Covers(marks, c, x.seqNo)
  }

  /** The whole pipeline is in order, and the mark covers it. */
  ghost predicate Ordered(g: Gate, c: Uuid) {
    InOrderFor(Pipeline(g, c), c) && Covered(Pipeline(g, c), g.marks, c)
  }

  /** Each stream holds its own cluster's heartbeats. */
  ghost predicate OwnHeartbeats(g: Gate) {
    forall d, x :: d in g.streams && x in Sending(g.streams[d]) + g.streams[d].queue ==> x.cluster == d
  }

  lemma {:induction false} InOrderSnoc(hbs: seq<Heartbeat>, c: Uuid, hb: Heartbeat)
    requires InOrderFor(hbs, c) && (hb.cluster == c ==> Below(hbs, hb))
    ensures InOrderFor(hbs + [hb], c)
  {
    var all := hbs + [hb];
    forall i, j | 0 <= i < j < |all| && all[i].cluster == c && all[j].cluster == c
      ensures all[i].seqNo <= all[j].seqNo && (all[i].seqNo == all[j].seqNo ==> all[i] == all[j])
    {
      assert all[i] in hbs;
    }
  }

  /** Leaving things out keeps the order. */
  lemma {:induction false} InOrderWithout(xs: seq<Heartbeat>, ys: seq<Heartbeat>, zs: seq<Heartbeat>, c: Uuid)
    requires InOrderFor(xs + (ys + zs), c)
    ensures InOrderFor(xs + zs, c) && InOrderFor(xs, c)
  {
    var all, less := xs + (ys + zs), xs + zs;
    forall i, j | 0 <= i < j < |less| && less[i].cluster == c && less[j].cluster == c
      ensures less[i].seqNo <= less[j].seqNo && (less[i].seqNo == less[j].seqNo ==> less[i] == less[j])
    {
      var i' := if i < |xs| then i else i + |ys|;
      var j' := if j < |xs| then j else j + |ys|;
      assert all[i'] == less[i] && all[j'] == less[j];
    }
    forall i, j | 0 <= i < j < |xs| && xs[i].cluster == c && xs[j].cluster == c
      ensures xs[i].seqNo <= xs[j].seqNo && (xs[i].seqNo == xs[j].seqNo ==> xs[i] == xs[j])
    {
      assert all[i] == xs[i] && all[j] == xs[j];
    }
  }

  /** Saying something twice in a row keeps the order. */
  lemma {:induction false} InOrderTwice(xs: seq<Heartbeat>, x: Heartbeat, zs: seq<Heartbeat>, c: Uuid)
    requires InOrderFor(xs + ([x] + zs), c)
    ensures InOrderFor((xs + [x]) + ([x] + zs), c)
  {
    var all, more := xs + ([x] + zs), (xs + [x]) + ([x] + zs);
    forall i, j | 0 <= i < j < |more| && more[i].cluster == c && more[j].cluster == c
      ensures more[i].seqNo <= more[j].seqNo && (more[i].seqNo == more[j].seqNo ==> more[i] == more[j])
    {
      var i' := if i <= |xs| then i else i - 1;
      var j' := if j <= |xs| then j else j - 1;
      assert all[i'] == more[i] && all[j'] == more[j];
    }
  }

  lemma {:induction false} InOrderInsertOther(xs: seq<Heartbeat>, x: Heartbeat, zs: seq<Heartbeat>, c: Uuid)
    requires InOrderFor(xs + zs, c) && x.cluster != c
    ensures InOrderFor((xs + [x]) + zs, c)
  {
    var all, more := xs + zs, (xs + [x]) + zs;
    forall i, j | 0 <= i < j < |more| && more[i].cluster == c && more[j].cluster == c
      ensures more[i].seqNo <= more[j].seqNo && (more[i].seqNo == more[j].seqNo ==> more[i] == more[j])
    {
      var i' := if i < |xs| then i else i - 1;
      var j' := if j < |xs| then j else j - 1;
      assert all[i'] == more[i] && all[j'] == more[j];
    }
  }

  lemma {:induction false} ReceiveOrdered(g: Gate, hb: Heartbeat, now: int, fits: bool, c: Uuid)
    requires Ordered(g, c)
    ensures Ordered(OnReceive(g, hb, now, fits), c)
  {
    var g' := OnReceive(g, hb, now, fits);
    if hb.cluster == c && !Covers(g.marks, c, hb.seqNo) {
      forall x | x in Pipeline(g, c) && x.cluster == c ensures x.seqNo < hb.seqNo {
        assert Covers(g.marks, c, x.seqNo);
      }
      InOrderSnoc(Pipeline(g, c), c, hb);
      var st := StreamOf(g, c);
      if fits && |st.queue| < QUEUE_CAPACITY {
        assert Pipeline(g', c) == Pipeline(g, c) + [hb];
      } else {
        assert Pipeline(g', c) == Pipeline(g, c);
      }
    } else {
      assert Pipeline(g', c) == Pipeline(g, c);
    }
  }

  lemma {:induction false} TakeOrdered(ttl: nat, g: Gate, d: Uuid, c: Uuid)
    requires Ordered(g, c)
    ensures Ordered(Act(ttl, g, Take(d)), c)
  {
    var st, g' := StreamOf(g, c), Act(ttl, g, Take(d));
    if d == c && st.sending.None? && st.queue != [] {
      assert Sending(StreamOf(g', c)) + StreamOf(g', c).queue == st.queue;
    }
    assert Pipeline(g', c) == Pipeline(g, c);
  }

  lemma {:induction false} SendOrdered(ttl: nat, g: Gate, d: Uuid, c: Uuid)
    requires Ordered(g, c) && OwnHeartbeats(g)
    ensures Ordered(Act(ttl, g, Send(d)), c)
  {
    var st, g' := StreamOf(g, d), Act(ttl, g, Send(d));
    if st.sending.Some? {
      var x := st.sending.value;
      assert x in Sending(st) + st.queue;
      if d == c {
        InOrderTwice(g.delivered, x, st.queue, c);
      } else {
        InOrderInsertOther(g.delivered, x, Sending(StreamOf(g, c)) + StreamOf(g, c).queue, c);
      }
    }
  }

  lemma {:induction false} SettleOrdered(ttl: nat, g: Gate, d: Uuid, c: Uuid)
    requires Ordered(g, c)
    ensures Ordered(Act(ttl, g, Settle(d)), c)
  {
    var st, g' := StreamOf(g, c), Act(ttl, g, Settle(d));
    if d == c {
      InOrderWithout(g.delivered, Sending(st), st.queue, c);
      assert Pipeline(g', c) == g.delivered + st.queue;
    } else {
      assert Pipeline(g', c) == Pipeline(g, c);
    }
  }

  lemma {:induction false} CloseOrdered(ttl: nat, g: Gate, d: Uuid, c: Uuid)
    requires Ordered(g, c)
    ensures Ordered(Act(ttl, g, Close(d)), c)
  {
    var st, g' := StreamOf(g, c), Act(ttl, g, Close(d));
    if d == c {
      InOrderWithout(g.delivered, Sending(st), st.queue, c);
      assert Pipeline(g', c) == g.delivered;
    } else {
      assert Pipeline(g', c) == Pipeline(g, c);
    }
  }

  lemma {:induction false} ActOrdered(ttl: nat, g: Gate, a: Action, c: Uuid)
    requires OwnHeartbeats(g) && Ordered(g, c)
    requires a.PruneTick? && c in g.marks ==> c in Act(ttl, g, a).marks
    ensures Ordered(Act(ttl, g, a), c)
  {
    match a {
      case Receive(hb, now, fits) => ReceiveOrdered(g, hb, now, fits, c);
      case Take(d) => TakeOrdered(ttl, g, d, c);
      case Send(d) => SendOrdered(ttl, g, d, c);
      case Settle(d) => SettleOrdered(ttl, g, d, c);
      case Close(d) => CloseOrdered(ttl, g, d, c);
      case PruneTick(now) =>
        assert Pipeline(Act(ttl, g, a), c) == Pipeline(g, c);
    }
  }

  lemma {:induction false} ActOwn(ttl: nat, g: Gate, a: Action)
    requires OwnHeartbeats(g)
    ensures OwnHeartbeats(Act(ttl, g, a))
  {
    var g' := Act(ttl, g, a);
    forall d, x | d in g'.streams && x in Sending(g'.streams[d]) + g'.streams[d].queue ensures x.cluster == d {
      var st, st' := StreamOf(g, d), g'.streams[d];
      assert x in Sending(st) + st.queue || (a.Receive? && x == a.hb && a.hb.cluster == d);
    }
  }

  lemma {:induction false} ContinueOrdered(ttl: nat, g: Gate, actions: seq<Action>, c: Uuid)
    requires OwnHeartbeats(g) && Ordered(g, c) && NeverEvicted(ttl, g, actions, c)
    ensures OwnHeartbeats(Continue(ttl, g, actions)) && Ordered(Continue(ttl, g, actions), c)
    decreases |actions|
  {
    if actions != [] {
      var n := |actions| - 1;
      EvictedNeverInPrefix(ttl, g, actions, c);
      ContinueOrdered(ttl, g, actions[..n], c);
      ActOwn(ttl, Continue(ttl, g, actions[..n]), actions[n]);
      assert actions[..n + 1] == actions;
      ActOrdered(ttl, Continue(ttl, g, actions[..n]), actions[n], c);
    }
  }

  lemma {:induction false} EvictedNeverInPrefix(ttl: nat, g: Gate, actions: seq<Action>, c: Uuid)
    requires NeverEvicted(ttl, g, actions, c) && actions != []
    ensures NeverEvicted(ttl, g, actions[..|actions| - 1], c)
  {
    var zs := actions[..|actions| - 1];
    forall i | 0 <= i < |zs| && zs[i].PruneTick? && c in Continue(ttl, g, zs[..i]).marks
      ensures c in Continue(ttl, g, zs[..i + 1]).marks
    {
      assert zs[..i] == actions[..i] && zs[..i + 1] == actions[..i + 1] && actions[i] == zs[i];
    }
  }

  /**
   * Despite drops, lost replies, repeated sends, streams that end with what they hold, and
   * eviction of other clusters: signals of a cluster that is not evicted reach the workflow with
   * numbers that never go back, and repeats of a number are repeats of the same heartbeat.
   */
  lemma {:induction false} SignalsArriveInOrder(ttl: nat, actions: seq<Action>, c: Uuid)
    requires NeverEvicted(ttl, NewGate(), actions, c)
    ensures InOrderFor(Continue(ttl, NewGate(), actions).delivered, c)
  {
    ContinueOrdered(ttl, NewGate(), actions, c);
    DeliveredInOrder(Continue(ttl, NewGate(), actions), c);
  }

  lemma {:induction false} DeliveredInOrder(g: Gate, c: Uuid)
    requires Ordered(g, c)
    ensures InOrderFor(g.delivered, c)
  {
    InOrderWithout(g.delivered, Sending(StreamOf(g, c)), StreamOf(g, c).queue, c);
  }

  // ---------------------------------------------------------------------------------------------
  // What is dropped
  // ---------------------------------------------------------------------------------------------

  /**
   * A new heartbeat raises its cluster's mark whatever becomes of it, and joins the pipeline
   * exactly when there is room in the channel in time.
   */
  lemma {:induction false} ReceiveMarksThenQueues(g: Gate, hb: Heartbeat, now: int, fits: bool)
    requires !Covers(g.marks, hb.cluster, hb.seqNo)
    ensures var g', c := OnReceive(g, hb, now, fits), hb.cluster;
            && Covers(g'.marks, c, hb.seqNo)
            && Pipeline(g', c) ==
               Pipeline(g, c) + if fits && |StreamOf(g, c).queue| < 256 then [hb] else []
  {
    var g', c := OnReceive(g, hb, now, fits), hb.cluster;
    if fits && |StreamOf(g, c).queue| < 256 {
      assert Pipeline(g', c) == Pipeline(g, c) + [hb];
    } else {
      assert Pipeline(g, c) + [] == Pipeline(g, c);
    }
  }

  /** Of the cluster's numbers up to `q`, nothing that was not there before. */
  ghost predicate NothingNewBelow(g: Gate, g': Gate, c: Uuid, q: nat) {
    forall x :: x in Pipeline(g', c) && x.cluster == c && x.seqNo <= q ==> x in Pipeline(g, c)
  }

  lemma {:induction false} ReceiveAddsNothingBelow(g: Gate, hb: Heartbeat, now: int, fits: bool, c: Uuid, q: nat)
    requires Covers(g.marks, c, q)
    ensures var g' := OnReceive(g, hb, now, fits); NothingNewBelow(g, g', c, q) && Covers(g'.marks, c, q)
  {
    var g' := OnReceive(g, hb, now, fits);
    if hb.cluster == c && !Covers(g.marks, c, hb.seqNo) {
      ReceiveMarksThenQueues(g, hb, now, fits);
    } else {
      assert Pipeline(g', c) == Pipeline(g, c);
    }
  }

  lemma {:induction false} SendAddsNothing(ttl: nat, g: Gate, d: Uuid, c: Uuid)
    requires OwnHeartbeats(g)
    ensures forall x :: x in Pipeline(Act(ttl, g, Send(d)), c) && x.cluster == c ==> x in Pipeline(g, c)
  {
    var st := StreamOf(g, d);
    if st.sending.Some? {
      assert st.sending.value in Sending(st) + st.queue;
    }
  }

  lemma {:induction false} OthersAddNothing(ttl: nat, g: Gate, a: Action, c: Uuid)
    requires !a.Receive? && !a.Send?
    ensures forall x :: x in Pipeline(Act(ttl, g, a), c) ==> x in Pipeline(g, c)
  {
    var st, st' := StreamOf(g, c), StreamOf(Act(ttl, g, a), c);
    assert forall x :: x in Sending(st') + st'.queue ==> x in Sending(st) + st.queue;
  }

  lemma {:induction false} ActAddsNothingBelow(ttl: nat, g: Gate, a: Action, c: Uuid, q: nat)
    requires OwnHeartbeats(g) && Covers(g.marks, c, q)
    requires a.PruneTick? ==> c in Act(ttl, g, a).marks
    ensures NothingNewBelow(g, Act(ttl, g, a), c, q) && Covers(Act(ttl, g, a).marks, c, q)
  {
    var g' := Act(ttl, g, a);
    if a.Receive? {
      ReceiveAddsNothingBelow(g, a.hb, a.now, a.fits, c, q);
    } else if a.Send? {
      SendAddsNothing(ttl, g, a.cluster, c);
    } else {
      OthersAddNothing(ttl, g, a, c);
    }
  }

  /**
   * Once a number is covered by its cluster's mark, no heartbeat with it or a lower number is
   * taken in any more, short of an eviction. So a heartbeat that was dropped is lost, however
   * often its cluster repeats it.
   */
  lemma {:induction false} DroppedIsLost(ttl: nat, g: Gate, actions: seq<Action>, c: Uuid, q: nat)
    requires OwnHeartbeats(g) && Covers(g.marks, c, q) && NeverEvicted(ttl, g, actions, c)
    ensures OwnHeartbeats(Continue(ttl, g, actions))
    ensures NothingNewBelow(g, Continue(ttl, g, actions), c, q) && Covers(Continue(ttl, g, actions).marks, c, q)
    decreases |actions|
  {
    if actions != [] {
      var n := |actions| - 1;
      EvictedNeverInPrefix(ttl, g, actions, c);
      DroppedIsLost(ttl, g, actions[..n], c, q);
      ActOwn(ttl, Continue(ttl, g, actions[..n]), actions[n]);
      assert actions[..n + 1] == actions;
      ActAddsNothingBelow(ttl, Continue(ttl, g, actions[..n]), actions[n], c, q);
    }
  }

  // ---------------------------------------------------------------------------------------------
  // Exactly when the order can be lost
  // ---------------------------------------------------------------------------------------------

  /** Whatever happens from here on, short of an eviction, `c` stays in order. */
  ghost predicate StaysInOrder(ttl: nat, g: Gate, c: Uuid) {
    forall actions :: NeverEvicted(ttl, g, actions, c) ==> InOrderFor(Continue(ttl, g, actions).delivered, c)
  }

  lemma {:induction false} ContinueSnoc(ttl: nat, g: Gate, actions: seq<Action>, a: Action)
    ensures Continue(ttl, g, actions + [a]) == Act(ttl, Continue(ttl, g, actions), a)
  {
    assert (actions + [a])[..|actions|] == actions;
  }

  /** Send and settle what is being sent, then the first `n` of the queue. */
  function Drain(c: Uuid, n: nat): seq<Action> {
    if n == 0 then [] + [Send(c)] + [Settle(c)]
    else Drain(c, n - 1) + [Take(c)] + [Send(c)] + [Settle(c)]
  }

  lemma {:induction false} DrainHasNoTick(c: Uuid, n: nat)
    ensures forall a :: a in Drain(c, n) ==> !a.PruneTick?
  {
    if n > 0 {
      DrainHasNoTick(c, n - 1);
    }
  }

  /** What is being sent is delivered, and the stream is free for the next. */
  lemma {:induction false} SendAndSettle(ttl: nat, g: Gate, c: Uuid)
    ensures var st, g' := StreamOf(g, c), Act(ttl, Act(ttl, g, Send(c)), Settle(c));
            && g'.delivered == g.delivered + Sending(st)
            && StreamOf(g', c) == Stream(st.queue, None) && g'.marks == g.marks
  {
  }

  lemma {:induction false} TakeNext(ttl: nat, g: Gate, c: Uuid)
    requires StreamOf(g, c).sending.None? && StreamOf(g, c).queue != []
    ensures var st, g' := StreamOf(g, c), Act(ttl, g, Take(c));
            && g'.delivered == g.delivered && g'.marks == g.marks
            && StreamOf(g', c) == Stream(st.queue[1..], Some(st.queue[0]))
  {
  }

  lemma {:induction false} ContinueTwo(ttl: nat, g: Gate, actions: seq<Action>, a: Action, b: Action)
    ensures Continue(ttl, g, actions + [a] + [b]) == Act(ttl, Act(ttl, Continue(ttl, g, actions), a), b)
  {
    ContinueSnoc(ttl, g, actions, a);
    ContinueSnoc(ttl, g, actions + [a], b);
  }

  /** Draining delivers what the stream holds, in order, and changes no mark. */
  lemma {:induction false} DrainDelivers(ttl: nat, g: Gate, c: Uuid, n: nat)
    requires n <= |StreamOf(g, c).queue|
    ensures var st, g' := StreamOf(g, c), Continue(ttl, g, Drain(c, n));
            && g'.delivered == g.delivered + (Sending(st) + st.queue[..n])
            && StreamOf(g', c) == Stream(st.queue[n..], None) && g'.marks == g.marks
  {
    var st := StreamOf(g, c);
    if n == 0 {
      ContinueTwo(ttl, g, [], Send(c), Settle(c));
      SendAndSettle(ttl, g, c);
      assert st.queue[..0] == [] && st.queue[0..] == st.queue && Sending(st) + [] == Sending(st);
    } else {
      var d, h := Drain(c, n - 1), Continue(ttl, g, Drain(c, n - 1));
      DrainDelivers(ttl, g, c, n - 1);
      ContinueTwo(ttl, g, d + [Take(c)], Send(c), Settle(c));
      ContinueSnoc(ttl, g, d, Take(c));
      TakeNext(ttl, h, c);
      SendAndSettle(ttl, Act(ttl, h, Take(c)), c);
      assert st.queue[n - 1..][1..] == st.queue[n..];
      assert st.queue[..n] == st.queue[..n - 1] + [st.queue[n - 1]];
      assert g.delivered + (Sending(st) + st.queue[..n]) == h.delivered + [st.queue[n - 1]];
    }
  }

  lemma {:induction false} WithoutTicks(ttl: nat, g: Gate, actions: seq<Action>, c: Uuid)
    requires forall a :: a in actions ==> !a.PruneTick?
    ensures NeverEvicted(ttl, g, actions, c)
  {
    forall i | 0 <= i < |actions| ensures !actions[i].PruneTick? {
      assert actions[i] in actions;
    }
  }

  lemma {:induction false} StaysThenPipelineInOrder(ttl: nat, g: Gate, c: Uuid)
    requires StaysInOrder(ttl, g, c)
    ensures InOrderFor(Pipeline(g, c), c)
  {
    var n := |StreamOf(g, c).queue|;
    DrainHasNoTick(c, n);
    WithoutTicks(ttl, g, Drain(c, n), c);
    DrainDelivers(ttl, g, c, n);
    assert StreamOf(g, c).queue[..n] == StreamOf(g, c).queue;
  }

  /** Another heartbeat with the same number. */
  function Twin(x: Heartbeat): Heartbeat {
    x.(timestampNs := if x.timestampNs == 0 then 1 else 0)
  }

  function Break(c: Uuid, n: nat, x: Heartbeat): seq<Action> {
    Drain(c, n) + [Receive(Twin(x), 0, true)] + [Take(c)] + [Send(c)]
  }

  lemma {:induction false} TwinGetsThrough(ttl: nat, g: Gate, c: Uuid, x: Heartbeat)
    requires StreamOf(g, c) == Stream([], None) && x.cluster == c && !Covers(g.marks, c, x.seqNo)
    ensures Act(ttl, Act(ttl, Act(ttl, g, Receive(Twin(x), 0, true)), Take(c)), Send(c)).delivered ==
            g.delivered + [Twin(x)]
  {
    var g1 := Act(ttl, g, Receive(Twin(x), 0, true));
    assert StreamOf(g1, c) == Stream([Twin(x)], None);
    assert StreamOf(Act(ttl, g1, Take(c)), c).sending == Some(Twin(x));
  }

  lemma {:induction false} UncoveredBreaks(ttl: nat, g: Gate, c: Uuid, x: Heartbeat)
    requires x in Pipeline(g, c) && x.cluster == c && !Covers(g.marks, c, x.seqNo)
    ensures !StaysInOrder(ttl, g, c)
  {
    var n := |StreamOf(g, c).queue|;
    var d, b := Drain(c, n), Break(c, n, x);
    DrainHasNoTick(c, n);
    WithoutTicks(ttl, g, b, c);
    DrainDelivers(ttl, g, c, n);
    assert StreamOf(g, c).queue[..n] == StreamOf(g, c).queue && StreamOf(g, c).queue[n..] == [];
    ContinueSnoc(ttl, g, d, Receive(Twin(x), 0, true));
    ContinueSnoc(ttl, g, d + [Receive(Twin(x), 0, true)], Take(c));
    ContinueSnoc(ttl, g, d + [Receive(Twin(x), 0, true)] + [Take(c)], Send(c));
    TwinGetsThrough(ttl, Continue(ttl, g, d), c, x);
    var log := Continue(ttl, g, b).delivered;
    assert log == Pipeline(g, c) + [Twin(x)];
    var i :| 0 <= i < |Pipeline(g, c)| && Pipeline(g, c)[i] == x;
    assert log[i] == x && log[|Pipeline(g, c)|] == Twin(x);
  }

  lemma {:induction false} OwnGateStaysInOrderIff(ttl: nat, g: Gate, c: Uuid)
    requires OwnHeartbeats(g)
    ensures StaysInOrder(ttl, g, c) <==> Ordered(g, c)
  {
    if Ordered(g, c) {
      forall actions | NeverEvicted(ttl, g, actions, c) ensures InOrderFor(Continue(ttl, g, actions).delivered, c) {
        ContinueOrdered(ttl, g, actions, c);
        DeliveredInOrder(Continue(ttl, g, actions), c);
      }
    }
    if StaysInOrder(ttl, g, c) {
      StaysThenPipelineInOrder(ttl, g, c);
      forall x | x in Pipeline(g, c) && x.cluster == c ensures Covers(g.marks, c, x.seqNo) {
        if !Covers(g.marks, c, x.seqNo) {
          UncoveredBreaks(ttl, g, c, x);
        }
      }
    }
  }

  lemma {:induction false} ReachedIsOwn(ttl: nat, actions: seq<Action>)
    ensures OwnHeartbeats(Continue(ttl, NewGate(), actions))
    decreases |actions|
  {
    if actions != [] {
      ReachedIsOwn(ttl, actions[..|actions| - 1]);
      ActOwn(ttl, Continue(ttl, NewGate(), actions[..|actions| - 1]), actions[|actions| - 1]);
    }
  }

  /**
   * After any actions, evictions included: the cluster stays in order whatever happens next,
   * short of an eviction, exactly when its pipeline is in order now and its mark covers it.
   */
  lemma {:induction false} StaysInOrderIff(ttl: nat, actions: seq<Action>, c: Uuid)
    ensures var g := Continue(ttl, NewGate(), actions);
            StaysInOrder(ttl, g, c) <==> Ordered(g, c)
  {
    ReachedIsOwn(ttl, actions);
    OwnGateStaysInOrderIff(ttl, Continue(ttl, NewGate(), actions), c);
  }

  /** Once a cluster is forgotten, any number below a delivered one gets through behind it. */
  lemma {:induction false} ForgottenClusterGoesBack(ttl: nat, g: Gate, x: Heartbeat, hb: Heartbeat, now: int)
    requires x in g.delivered && hb.cluster == x.cluster && hb.seqNo < x.seqNo
    requires x.cluster !in g.marks && StreamOf(g, x.cluster) == Stream([], None)
    ensures var actions := [] + [Receive(hb, now, true)] + [Take(hb.cluster)] + [Send(hb.cluster)];
            !InOrderFor(Continue(ttl, g, actions).delivered, x.cluster)
  {
    var c, a1 := x.cluster, [] + [Receive(hb, now, true)];
    ContinueSnoc(ttl, g, [], Receive(hb, now, true));
    ContinueSnoc(ttl, g, a1, Take(c));
    ContinueSnoc(ttl, g, a1 + [Take(c)], Send(c));
    assert StreamOf(Continue(ttl, g, a1), c) == Stream([hb], None);
    var log := Continue(ttl, g, a1 + [Take(c)] + [Send(c)]).delivered;
    assert log == g.delivered + [hb];
    var i :| 0 <= i < |g.delivered| && g.delivered[i] == x;
    assert log[i] == x && log[|g.delivered|] == hb;
  }

  function ForgetfulRun(ttl: nat, x: Heartbeat): seq<Action> {
    [] + [Receive(x, 0, true)] + [Take(x.cluster)] + [Send(x.cluster)] + [Settle(x.cluster)] + [PruneTick(ttl + 1)]
  }

  /** One heartbeat delivered, and the cluster idle for longer than the TTL: the order can be lost. */
  lemma {:induction false} IdleClusterIsForgotten(ttl: nat, x: Heartbeat)
    ensures var g := Continue(ttl, NewGate(), ForgetfulRun(ttl, x));
            && x in g.delivered && x.cluster !in g.marks && StreamOf(g, x.cluster) == Stream([], None)
            && !StaysInOrder(ttl, g, x.cluster)
  {
    var c, g0 := x.cluster, NewGate();
    var a1 := [] + [Receive(x, 0, true)];
    var a2 := a1 + [Take(c)];
    var a3 := a2 + [Send(c)];
    var a4 := a3 + [Settle(c)];
    ContinueSnoc(ttl, g0, [], Receive(x, 0, true));
    ContinueSnoc(ttl, g0, a1, Take(c));
    ContinueSnoc(ttl, g0, a2, Send(c));
    ContinueSnoc(ttl, g0, a3, Settle(c));
    ContinueSnoc(ttl, g0, a4, PruneTick(ttl + 1));
    assert StreamOf(Continue(ttl, g0, a1), c) == Stream([x], None);
    assert StreamOf(Continue(ttl, g0, a2), c) == Stream([], Some(x));
    assert Continue(ttl, g0, a3).delivered == [x];
    assert Continue(ttl, g0, a4).marks == map[c := Mark(x.seqNo, 0)];
    UncoveredBreaks(ttl, Continue(ttl, g0, ForgetfulRun(ttl, x)), c, x);
  }

  // ---------------------------------------------------------------------------------------------
  // Gateway and workflow together
  // ---------------------------------------------------------------------------------------------

  /** `xs` is what remains of `ys` when some signals were lost on the way; `at` says where each was. */
  predicate Picks(xs: seq<Heartbeat>, ys: seq<Heartbeat>, at: seq<nat>) {
    && |at| == |xs|
    && (forall i :: 0 <= i < |at| ==> at[i] < |ys| && ys[at[i]] == xs[i])
    && (forall i, j :: 0 <= i < j < |at| ==> at[i] < at[j])
  }

  lemma {:induction false} PickedFollows(ys: seq<Heartbeat>, xs: seq<Heartbeat>, hb: Heartbeat, at: seq<nat>)
    requires InOrderFor(ys, hb.cluster) && Picks(xs + [hb], ys, at)
    ensures Follows(xs, hb)
  {
    var all := xs + [hb];
    forall x | x in xs && x.cluster == hb.cluster ensures x.seqNo <= hb.seqNo && (x.seqNo == hb.seqNo ==> x == hb) {
      var i :| 0 <= i < |xs| && xs[i] == x;
      assert all[i] == x && all[|xs|] == hb;
      assert at[i] < at[|xs|];
      assert ys[at[i]] == x && ys[at[|xs|]] == hb;
    }
  }

  /**
   * End to end: a heartbeat that comes through the gateway and is then skipped by the workflow as
   * a duplicate is part of a completed flush. Nothing is lost to deduplication.
   */
  lemma {:induction false} SkippedWasProcessed(ttl: nat, actions: seq<Action>, cfg: Config, es: seq<Event>,
      hb: Heartbeat, at: seq<nat>)
    requires hb.seqNo >= 1 && NeverEvicted(ttl, NewGate(), actions, hb.cluster)
    requires Picks(Exec(Init(cfg), es).received + [hb], Continue(ttl, NewGate(), actions).delivered, at)
    requires SeenBefore(Exec(Init(cfg), es).wf, hb)
    ensures var s := Exec(Init(cfg), es); InCompletedFlush(s.inputs, s.done, hb)
  {
    SignalsArriveInOrder(ttl, actions, hb.cluster);
    PickedFollows(Continue(ttl, NewGate(), actions).delivered, Exec(Init(cfg), es).received, hb, at);
    DiscardedWasProcessed(cfg, es, hb);
  }
}
