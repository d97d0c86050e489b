/** What the CSMA queue guarantees in every run. */
module CsmaTheorems {
  import opened Types
  import opened Csma
  import opened CsmaRuns
  import Sums

  /**
   * After any sequence of events, failed allocations included: packets, metadata and
   * buffers in use are exactly the queued packets, entries in use are exactly the listed
   * queues, no address is listed twice, no listed queue is empty, and every listed queue
   * has its timer armed.
   */
  lemma PoolsConserved(lim: Limits, run: seq<World>, i: nat)
    requires IsRun(lim, run) && i < |run|
    ensures var s := run[i].s;
            && s.packets == s.metadata == s.bufs == Queued(s.queues, None) <= lim.packets
            && s.entries == |s.queues| <= lim.neighbours
            && (forall j, k :: 0 <= j < k < |s.queues| ==> s.queues[j].addr != s.queues[k].addr)
            && forall j :: 0 <= j < |s.queues| ==>
                 && 0 < |s.queues[j].packets| <= lim.perNeighbour
                 && s.queues[j].timer.Some? && s.queues[j].timer.value < MaxTransmissionDelay(lim.period)
  {
    RunKeeps(lim, run, i);
    forall j | 0 <= j < |run[i].s.queues|
      ensures QueueOk(lim, run[i].s.queues[j])
    {
    }
  }

  ghost predicate NoneEmpty(queues: seq<Queue>)
  {
    forall j :: 0 <= j < |queues| ==> queues[j].packets != []
  }

  /**
   * Which packets leave an empty queue behind, from any list. With a limit above 0 the queue for the
   * destination holds the packet if it was accepted, leaves the list if it was empty, and stays as it
   * was otherwise; with the limit 0 no packet is accepted, and the entry made for a new destination stays.
   */
  lemma EmptyQueueLeft(lim: Limits, s: State, r: Request, seed: Byte, rnd: nat)
    ensures var qs, qs', i := s.queues, Submit(lim, s, r, seed, rnd).queues, Find(s.queues, r.dest);
            if lim.perNeighbour == 0 then
              !Accepts(lim, s, r) && qs' == if i == |qs| && s.entries < lim.neighbours then qs + [Queue(r.dest, 0, 0, [], None)] else qs
            else if Accepts(lim, s, r) then
              |qs'| == (if i < |qs| then |qs| else |qs| + 1) && i < |qs'| && qs'[i].addr == r.dest && qs'[i].packets != [] && (forall j :: 0 <= j < |qs| && j != i ==> qs'[j] == qs[j])
            else
              qs' == if i < |qs| && qs[i].packets == [] then Without(qs, i) else qs
    ensures NoneEmpty(Submit(lim, s, r, seed, rnd).queues) <==>
              if lim.perNeighbour > 0 then forall j :: 0 <= j < |s.queues| && j != Find(s.queues, r.dest) ==> s.queues[j].packets != []
              else NoneEmpty(s.queues) && (Find(s.queues, r.dest) < |s.queues| || s.entries >= lim.neighbours)
  {
    var s', i := Submit(lim, s, r, seed, rnd), Find(s.queues, r.dest);
    if Accepts(lim, s, r) {
      AcceptEffect(lim, s, r, seed, rnd);
      OthersKept(s.queues, s'.queues, i);
    } else if lim.perNeighbour == 0 {
      if i == |s.queues| && s.entries < lim.neighbours {
        assert s'.queues[i].packets == [];
      } else {
        assert s'.queues == s.queues;
      }
    } else if i < |s.queues| && s.queues[i].packets == [] {
      assert s'.queues == Without(s.queues, i);
      assert forall j :: 0 <= j < |s.queues| && j != i ==> s.queues[j] == s'.queues[if j < i then j else j - 1];
    } else {
      RefuseEffect(lim, s, r, seed, rnd);
    }
  }

  lemma OthersKept(before: seq<Queue>, after: seq<Queue>, i: nat)
    requires |before| <= |after| && i < |after| <= |before| + 1 && (|after| > |before| ==> i == |before|)
    requires forall j :: 0 <= j < |before| && j != i ==> after[j] == before[j]
    requires after[i].packets != []
    ensures NoneEmpty(after) <==> forall j :: 0 <= j < |before| && j != i ==> before[j].packets != []
  {
    assert forall j :: 0 <= j < |before| && j != i ==> after[j] == before[j];
  }

  /** Every packet handed over gets exactly one callback once it is no longer queued, and none before. */
  lemma OneCallbackEach(lim: Limits, run: seq<World>, i: nat, k: nat)
    requires IsRun(lim, run) && i < |run|
    ensures k < |run[i].jobs| ==>
              Logged(run[i].s.log, k) == if Queued(run[i].s.queues, Some(k)) == 0 then 1 else 0
    ensures k >= |run[i].jobs| ==> Logged(run[i].s.log, k) == 0
    ensures run[i].s.queues == [] ==> Logged(run[i].s.log, k) == if k < |run[i].jobs| then 1 else 0
  {
    RunKeeps(lim, run, i);
    assert Logged(run[i].s.log, k) + Queued(run[i].s.queues, Some(k)) == if k < |run[i].jobs| then 1 else 0;
  }

  /** A callback reports NOACK or COLLISION only after max_transmissions, and OK within them. */
  lemma CallbacksAreTrue(lim: Limits, run: seq<World>, i: nat, k: nat)
    requires IsRun(lim, run) && i < |run| && k < |run[i].s.log|
    ensures var c := run[i].s.log[k];
            && c.id < |run[i].jobs|
            && var j := run[i].jobs[c.id];
               if !j.accepted then c.status == Err && c.ntx == 1 && |j.tried| == 0
               else
                 && 0 < |j.tried|
                 && (c.status == NoAck || c.status == Collision ==> c.ntx == j.maxTx)
                 && (c.status == Ok ==> 0 < c.ntx <= j.maxTx)
  {
    RunKeeps(lim, run, i);
    assert CallbackOk(run[i].jobs, run[i].s.log[k]);
  }

  // ---- refinement ----

  /** The order of acceptance is the order of handing over. */
  lemma {:induction false} AcceptedIncreasing(jobs: seq<Job>, d: LinkId)
    ensures forall a, b :: 0 <= a < b < |AcceptedFor(jobs, d)| ==> AcceptedFor(jobs, d)[a] < AcceptedFor(jobs, d)[b]
    ensures forall a :: 0 <= a < |AcceptedFor(jobs, d)| ==> IsFor(jobs, AcceptedFor(jobs, d)[a], d)
  {
    if jobs != [] {
      AcceptedIncreasing(jobs[..|jobs| - 1], d);
    }
  }

  /** Accepted packets to one destination complete in the order they were handed over; what is left is its queue. */
  lemma CompletesInOrder(lim: Limits, run: seq<World>, i: nat, d: LinkId)
    requires IsRun(lim, run) && i < |run|
    ensures var w := run[i];
            CompletedFor(w.s.log, w.jobs, d) + Fifo(w.s.queues, d) == AcceptedFor(w.jobs, d)
    ensures var done := CompletedFor(run[i].s.log, run[i].jobs, d);
            forall a, b :: 0 <= a < b < |done| ==> done[a] < done[b]
  {
    RunKeeps(lim, run, i);
    AcceptedIncreasing(run[i].jobs, d);
    var done, all := CompletedFor(run[i].s.log, run[i].jobs, d), AcceptedFor(run[i].jobs, d);
    assert done + Fifo(run[i].s.queues, d) == all;
    assert forall a :: 0 <= a < |done| ==> done[a] == all[a];
  }

  /** Each event is one operation of a map from destinations to FIFOs: enqueue, dequeue the head, or nothing. */
  lemma StepRefines(lim: Limits, w: World, e: Event, d: LinkId)
    requires Inv(lim, w) && CanHappen(w, e) && lim.perNeighbour > 0
    ensures var w' := After(lim, w, e);
            match e
            case HandedOver(dest, _, _, _, _) =>
              Fifo(w'.s.queues, d)
              == Fifo(w.s.queues, d) + if d == dest && Accepts(lim, w.s, RequestOf(w, e)) then [|w.jobs|] else []
            case TimerFired(q, _, _) =>
              if w'.s.log == w.s.log then Fifo(w'.s.queues, d) == Fifo(w.s.queues, d)
              else
                && |w'.s.log| == |w.s.log| + 1 && w.s.log < w'.s.log
                && Fifo(w.s.queues, d)
                   == (if d == w.s.queues[q].addr then [w'.s.log[|w.s.log|].id] else []) + Fifo(w'.s.queues, d)
  {
    if e.HandedOver? {
      var r := RequestOf(w, e);
      if Accepts(lim, w.s, r) {
        AcceptEffect(lim, w.s, r, e.seed, e.rnd);
        JoinFifo(lim, w.s.queues, r.dest, Packet(r.id, NextSeqno(w.s, e.seed), MaxTx(r.maxTxAttr)), e.rnd, d);
      } else {
        if Find(w.s.queues, r.dest) < |w.s.queues| {
          DestNonEmpty(lim, w.s, r.dest);
        }
        RefuseEffect(lim, w.s, r, e.seed, e.rnd);
      }
    } else {
      var i, result := e.queue, SendResult(e.radio);
      FireIsStep(lim, w, e);
      if Finishes(Counted(w.s.queues[i], result), result) {
        ShorterFifo(lim, w.s.queues, i, e.rnd, d);
      } else {
        RetryList(w.s.queues, i, Retried(lim, w.s.queues[i], result, e.rnd), d);
      }
    }
  }

  // ---- progress ----

  /** A queue that is listed can always make its next attempt, and every block it frees is allocated. */
  lemma NoDeadlock(lim: Limits, run: seq<World>, i: nat, q: nat, radio: Radio, rnd: nat)
    requires IsRun(lim, run) && i < |run| && q < |run[i].s.queues|
    ensures CanHappen(run[i], TimerFired(q, radio, rnd))
  {
    RunKeeps(lim, run, i);
    var s := run[i].s;
    assert QueueOk(lim, s.queues[q]) && Owned(run[i].jobs, s.queues[q]);
    QueuedUpdate(s.queues, q, s.queues[q].(packets := []), None);
    assert CountIn(s.queues[q].packets, None) > 0;
  }

  /** Each packet takes at most (CSMA_MAX_BACKOFF + 1) * max_transmissions radio attempts. */
  lemma AttemptsBounded(lim: Limits, run: seq<World>, i: nat, k: nat)
    requires IsRun(lim, run) && i < |run| && k < |run[i].jobs|
    ensures |run[i].jobs[k].tried| <= 6 * run[i].jobs[k].maxTx
  {
    RunKeeps(lim, run, i);
  }

  /** `n` collisions in a row on the same head. */
  function Collide(q: Queue, n: nat): Queue
  {
    if n == 0 then q else Counted(Collide(q, n - 1), Collision)
  }

  /** The bound is reached: with nothing but collisions a fresh head is given up at exactly that attempt. */
  lemma {:induction false} CollisionsUseTheBudget(q: Queue, n: nat)
    requires q.packets != [] && Rank(q) == 0 && q.packets[0].maxTx > 0
    requires n <= 6 * q.packets[0].maxTx
    ensures Collide(q, n).packets == q.packets && Rank(Collide(q, n)) == n
    ensures Collide(q, n).collisions <= CSMA_MAX_BACKOFF
    ensures Finishes(Collide(q, n), Collision) <==> n == 6 * q.packets[0].maxTx
  {
    if n > 0 {
      CollisionsUseTheBudget(q, n - 1);
      AttemptCounts(Collide(q, n - 1), Collision);
    }
  }

  function Attempts(jobs: seq<Job>): (r: seq<int>)
    ensures |r| == |jobs|
  {
    seq(|jobs|, k requires 0 <= k < |jobs| => |jobs[k].tried|)
  }

  function Budgets(jobs: seq<Job>): (r: seq<int>)
    ensures |r| == |jobs|
  {
    seq(|jobs|, k requires 0 <= k < |jobs| => Budget(jobs[k]))
  }

  lemma AttemptsStep(lim: Limits, w: World, w': World)
    requires Happens(lim, w, w')
    ensures |w'.jobs| + Sums.Sum(Attempts(w'.jobs)) == |w.jobs| + Sums.Sum(Attempts(w.jobs)) + 1
  {
    var e :| CanHappen(w, e) && w' == After(lim, w, e);
    if e.HandedOver? {
      assert Attempts(w'.jobs)[..|w.jobs|] == Attempts(w.jobs);
    } else {
      Sums.SumUpdate(Attempts(w.jobs), Attempts(w'.jobs), w.s.queues[e.queue].packets[0].id);
    }
  }

  lemma {:induction false} RunCounts(lim: Limits, run: seq<World>, i: nat)
    requires IsRun(lim, run) && i < |run|
    ensures i == |run[i].jobs| + Sums.Sum(Attempts(run[i].jobs))
  {
    if i > 0 {
      RunCounts(lim, run, i - 1);
      assert Follows(lim, run, i - 1);
      AttemptsStep(lim, run[i - 1], run[i]);
    }
  }

  /**
   * Progress: every run that hands over finitely many packets is finite, because each event is
   * a handing over or one of a bounded number of attempts; and where no timer is armed every
   * packet has had its callback.
   */
  lemma EveryPacketIsServed(lim: Limits, run: seq<World>, i: nat, k: nat)
    requires IsRun(lim, run) && i < |run|
    ensures i <= |run[i].jobs| + Sums.Sum(Budgets(run[i].jobs))
    ensures (forall q :: 0 <= q < |run[i].s.queues| ==> run[i].s.queues[q].timer == None) && k < |run[i].jobs| ==>
              Logged(run[i].s.log, k) == 1
  {
    RunCounts(lim, run, i);
    RunKeeps(lim, run, i);
    Sums.SumMonotone(Attempts(run[i].jobs), Budgets(run[i].jobs));
    if run[i].s.queues != [] {
      assert QueueOk(lim, run[i].s.queues[0]);
    } else {
      OneCallbackEach(lim, run, i, k);
    }
  }

  // ---- the sentinel ----

  lemma SpanValues(collisions: nat, period: nat)
    ensures BackoffSpan(collisions, period) == (if collisions == 0 then 7 else if collisions == 1 then 15 else 31) * period
    ensures MaxTransmissionDelay(period) == 31 * period
  {
    assert Pow2(5) == 2 * Pow2(4) == 4 * Pow2(3);
    assert Pow2(3) == 2 * Pow2(2) == 4 * Pow2(1) == 8 * Pow2(0);
  }

  lemma SmallModulus(x: nat, m: nat)
    requires x < m
    ensures x % m == x
  {
  }

  /** Every delay is below max_transmission_delay(), which is at most 1000 up to 32 ticks per period. */
  lemma DelaysBelowMaximum(collisions: nat, period: nat, rnd: nat)
    requires period > 0
    ensures Delay(collisions, period, rnd) < MaxTransmissionDelay(period)
    ensures MaxTransmissionDelay(period) <= NOT_SCHEDULED <==> period <= 32
  {
    DelayBelow(collisions, period, rnd);
    SpanValues(collisions, period);
  }

  /** 1000 is never a real delay exactly when a backoff period has at most 32 ticks. */
  lemma SentinelIsSound(period: nat)
    requires period > 0
    ensures (forall collisions: nat, rnd: nat :: rnd < 65536 ==> Delay(collisions, period, rnd) != NOT_SCHEDULED) <==> period <= 32
  {
    if period <= 32 {
      forall collisions: nat, rnd: nat
        ensures Delay(collisions, period, rnd) != NOT_SCHEDULED
      {
        DelaysBelowMaximum(collisions, period, rnd);
      }
    } else {
      SpanValues(2, period);
      SmallModulus(1000, BackoffSpan(2, period));
      assert Delay(2, period, 1000) == NOT_SCHEDULED;
    }
  }

  /** For a packet that is scheduled as it is handed over the first backoff counts: at most 142 ticks. */
  lemma FirstDelayIsSound(period: nat)
    requires period > 0
    ensures (forall rnd: nat :: rnd < 65536 ==> Delay(0, period, rnd) != NOT_SCHEDULED) <==> period <= 142
  {
    SpanValues(0, period);
    if period <= 142 {
      forall rnd: nat
        ensures Delay(0, period, rnd) != NOT_SCHEDULED
      {
        DelayBelow(0, period, rnd);
      }
    } else {
      SmallModulus(1000, BackoffSpan(0, period));
      assert Delay(0, period, 1000) == NOT_SCHEDULED;
    }
  }
}
