/**
 * The CSMA queue over whole runs: any interleaving of packets handed over and transmit
 * timers firing, with any radio results and any failing allocation.
 */
module CsmaRuns {
  import opened Types
  import opened Csma

  /**
   * What happened to the k-th packet handed over: its attribute for the transmissions, what it was
   * granted, its sequence number, whether it was accepted, and what the radio showed at each attempt.
   */
  datatype Job = Job(dest: LinkId, attr: nat, maxTx: Byte, seqno: Byte, accepted: bool, tried: seq<Radio>)

  datatype World = World(s: State, jobs: seq<Job>)

  datatype Event =
    | HandedOver(dest: LinkId, attr: nat, bufGiven: bool, seed: Byte, rnd: nat)
    | TimerFired(queue: nat, radio: Radio, rnd: nat)

  function RequestOf(w: World, e: Event): Request
    requires e.HandedOver?
  {
    Request(|w.jobs|, e.dest, e.attr, e.bufGiven)
  }

  /** A timer fires only while it is armed; its packet must be allocated. */
  predicate CanHappen(w: World, e: Event)
  {
    match e
    case HandedOver(_, _, _, _, _) => true
    case TimerFired(i, _, _) =>
      && i < |w.s.queues| && w.s.queues[i].timer.Some? && w.s.queues[i].packets != []
      && w.s.packets > 0 && w.s.metadata > 0 && w.s.bufs > 0 && w.s.entries > 0
      && w.s.queues[i].packets[0].id < |w.jobs|
  }

  function After(lim: Limits, w: World, e: Event): World
    requires CanHappen(w, e)
  {
    match e
    case HandedOver(dest, attr, _, seed, rnd) =>
      var r := RequestOf(w, e);
      World(Submit(lim, w.s, r, seed, rnd), w.jobs + [Job(dest, attr, MaxTx(attr), NextSeqno(w.s, seed), Accepts(lim, w.s, r), [])])
    case TimerFired(i, radio, rnd) =>
      var k := w.s.queues[i].packets[0].id;
      World(Fire(w.s, i, SendResult(radio), lim.period, rnd), w.jobs[k := w.jobs[k].(tried := w.jobs[k].tried + [radio])])
  }

  ghost predicate Happens(lim: Limits, w: World, w': World)
  {
    exists e :: CanHappen(w, e) && w' == After(lim, w, e)
  }

  ghost predicate IsRun(lim: Limits, run: seq<World>)
  {
    && lim.perNeighbour > 0 && lim.period > 0
    && |run| > 0 && run[0] == World(Idle, [])
    && forall i :: 0 <= i < |run| - 1 ==> Follows(lim, run, i)
  }

  ghost predicate Follows(lim: Limits, run: seq<World>, i: nat)
    requires i < |run| - 1
  {
    Happens(lim, run[i], run[i + 1])
  }

  // ---- what is queued, completed and accepted ----

  function Ids(packets: seq<Packet>): (r: seq<nat>)
    ensures |r| == |packets|
    ensures forall i :: 0 <= i < |packets| ==> r[i] == packets[i].id
  {
    seq(|packets|, i requires 0 <= i < |packets| => packets[i].id)
  }

  /** Packets in a queue: all of them, or those with a given id. */
  function CountIn(packets: seq<Packet>, id: Option<nat>): nat
  {
    if packets == [] then 0
    else (if id == None || id.value == packets[0].id then 1 else 0) + CountIn(packets[1..], id)
  }

  /** Packets in all queues. */
  function Queued(queues: seq<Queue>, id: Option<nat>): nat
  {
    if queues == [] then 0
    else Queued(queues[..|queues| - 1], id) + CountIn(queues[|queues| - 1].packets, id)
  }

  /** Callbacks made for `id`. */
  function Logged(log: seq<Callback>, id: nat): nat
  {
    if log == [] then 0
    else Logged(log[..|log| - 1], id) + if log[|log| - 1].id == id then 1 else 0
  }

  predicate IsFor(jobs: seq<Job>, k: nat, dest: LinkId)
  {
    k < |jobs| && jobs[k].accepted && jobs[k].dest == dest
  }

  /** Accepted packets to `dest`, in the order they were handed over. */
  function AcceptedFor(jobs: seq<Job>, dest: LinkId): seq<nat>
  {
    if jobs == [] then []
    else
      var l := |jobs| - 1;
      AcceptedFor(jobs[..l], dest) + if IsFor(jobs, l, dest) then [l] else []
  }

  /** Accepted packets to `dest`, in the order of their callbacks. */
  function CompletedFor(log: seq<Callback>, jobs: seq<Job>, dest: LinkId): seq<nat>
  {
    if log == [] then []
    else
      var l := |log| - 1;
      CompletedFor(log[..l], jobs, dest) + if IsFor(jobs, log[l].id, dest) then [log[l].id] else []
  }

  /** The abstract FIFO of a destination. */
  function Fifo(queues: seq<Queue>, dest: LinkId): seq<nat>
  {
    var i := Find(queues, dest);
    if i < |queues| then Ids(queues[i].packets) else []
  }

  /** Strictly grows with every attempt while the packet stays at the head. */
  function Rank(q: Queue): nat
  {
    (CSMA_MAX_BACKOFF + 1) * q.transmissions + q.collisions
  }

  function Budget(j: Job): nat { (CSMA_MAX_BACKOFF + 1) * j.maxTx }

  // ---- the invariant ----

  ghost predicate DistinctQueues(queues: seq<Queue>)
  {
    forall i, j :: 0 <= i < j < |queues| ==> queues[i].addr != queues[j].addr
  }

  /** Non-empty, with its timer armed and its counters below their limits. */
  ghost predicate QueueOk(lim: Limits, q: Queue)
  {
    && 0 < |q.packets| <= lim.perNeighbour
    && q.timer.Some? && q.timer.value < MaxTransmissionDelay(lim.period)
    && q.collisions <= CSMA_MAX_BACKOFF
    && q.transmissions < q.packets[0].maxTx
    && forall p :: 0 <= p < |q.packets| ==> q.packets[p].maxTx > 0 && q.packets[p].seqno != 0
  }

  /** Pools, list and queues agree between events. */
  ghost predicate Conserved(lim: Limits, s: State)
  {
    && s.packets == s.metadata == s.bufs == Queued(s.queues, None) <= lim.packets
    && s.entries == |s.queues| <= lim.neighbours
    && DistinctQueues(s.queues)
    && forall i :: 0 <= i < |s.queues| ==> QueueOk(lim, s.queues[i])
  }

  /** The packets of a queue are accepted jobs of its destination; only the head has been tried. */
  ghost predicate Owned(jobs: seq<Job>, q: Queue)
  {
    && (forall p :: 0 <= p < |q.packets| ==>
         && IsFor(jobs, q.packets[p].id, q.addr)
         && jobs[q.packets[p].id].maxTx == q.packets[p].maxTx && jobs[q.packets[p].id].seqno == q.packets[p].seqno
         && |jobs[q.packets[p].id].tried| <= if p == 0 then Rank(q) else 0)
    && forall p, r :: 0 <= p < r < |q.packets| ==> q.packets[p].id < q.packets[r].id
  }

  /** What a callback tells: gave up only after max_transmissions, sent within it. */
  ghost predicate CallbackOk(jobs: seq<Job>, c: Callback)
  {
    && c.id < |jobs|
    && (!jobs[c.id].accepted ==> c.status == Err && c.ntx == 1 && |jobs[c.id].tried| == 0)
    && (jobs[c.id].accepted ==>
         && 0 < |jobs[c.id].tried|
         && (c.status == NoAck || c.status == Collision ==> c.ntx == jobs[c.id].maxTx)
         && (c.status == Ok ==> 0 < c.ntx <= jobs[c.id].maxTx))
  }

  ghost predicate AllOwned(w: World)
  {
    forall i :: 0 <= i < |w.s.queues| ==> Owned(w.jobs, w.s.queues[i])
  }

  ghost predicate LogOk(jobs: seq<Job>, log: seq<Callback>)
  {
    forall k :: 0 <= k < |log| ==> CallbackOk(jobs, log[k])
  }

  ghost predicate Bounded(jobs: seq<Job>)
  {
    forall k :: 0 <= k < |jobs| ==> |jobs[k].tried| <= Budget(jobs[k])
  }

  /** Every packet handed over has had its one callback or is still queued, and not both. */
  ghost predicate Census(w: World)
  {
    forall k: nat :: Logged(w.s.log, k) + Queued(w.s.queues, Some(k)) == if k < |w.jobs| then 1 else 0
  }

  ghost predicate InOrder(w: World)
  {
    forall d :: CompletedFor(w.s.log, w.jobs, d) + Fifo(w.s.queues, d) == AcceptedFor(w.jobs, d)
  }

  ghost predicate Inv(lim: Limits, w: World)
  {
    && Conserved(lim, w.s)
    && AllOwned(w)
    && LogOk(w.jobs, w.s.log)
    && Bounded(w.jobs)
    && Census(w)
    && InOrder(w)
  }

  // ---- lists of queues ----

  lemma {:induction false} CountAppend(packets: seq<Packet>, p: Packet, id: Option<nat>)
    ensures CountIn(packets + [p], id) == CountIn(packets, id) + CountIn([p], id)
  {
    var all := packets + [p];
    if packets == [] {
      assert all == [p];
    } else {
      assert all[1..] == packets[1..] + [p];
      CountAppend(packets[1..], p, id);
    }
  }

  lemma {:induction false} QueuedUpdate(queues: seq<Queue>, i: nat, q: Queue, id: Option<nat>)
    requires i < |queues|
    ensures Queued(queues[i := q], id) + CountIn(queues[i].packets, id) == Queued(queues, id) + CountIn(q.packets, id)
  {
    var l := |queues| - 1;
    if i == l {
      assert queues[i := q][..l] == queues[..l];
    } else {
      assert queues[i := q][..l] == queues[..l][i := q];
      QueuedUpdate(queues[..l], i, q, id);
    }
  }

  lemma {:induction false} QueuedWithout(queues: seq<Queue>, i: nat, id: Option<nat>)
    requires i < |queues|
    ensures Queued(Without(queues, i), id) + CountIn(queues[i].packets, id) == Queued(queues, id)
  {
    var l := |queues| - 1;
    if i == l {
      assert Without(queues, i) == queues[..l];
    } else {
      assert Without(queues, i)[..l - 1] == Without(queues[..l], i);
      assert Without(queues, i)[l - 1] == queues[l];
      QueuedWithout(queues[..l], i, id);
    }
  }

  lemma FifoAt(queues: seq<Queue>, i: nat)
    requires i < |queues| && DistinctQueues(queues)
    ensures Fifo(queues, queues[i].addr) == Ids(queues[i].packets)
  {
    var k := Find(queues, queues[i].addr);
    assert k <= i;
  }

  lemma FifoNone(queues: seq<Queue>, d: LinkId)
    requires forall i :: 0 <= i < |queues| ==> queues[i].addr != d
    ensures Fifo(queues, d) == []
  {
  }

  /** Updating one queue in place changes the FIFO of its destination only. */
  lemma FifoUpdate(queues: seq<Queue>, i: nat, q: Queue, d: LinkId)
    requires i < |queues| && DistinctQueues(queues) && q.addr == queues[i].addr
    ensures DistinctQueues(queues[i := q])
    ensures Fifo(queues[i := q], d) == if d == q.addr then Ids(q.packets) else Fifo(queues, d)
  {
    var after := queues[i := q];
    assert after[i] == q;
    if d == q.addr {
      FifoAt(after, i);
    } else {
      var k := Find(queues, d);
      if k < |queues| {
        assert after[k] == queues[k];
        FifoAt(after, k);
      } else {
        FifoNone(after, d);
      }
    }
  }

  lemma FifoWithout(queues: seq<Queue>, i: nat, d: LinkId)
    requires i < |queues| && DistinctQueues(queues)
    ensures DistinctQueues(Without(queues, i))
    ensures Fifo(Without(queues, i), d) == if d == queues[i].addr then [] else Fifo(queues, d)
  {
    var after := Without(queues, i);
    if d == queues[i].addr {
      FifoNone(after, d);
    } else {
      var k := Find(queues, d);
      if k < |queues| {
        assert after[if k < i then k else k - 1] == queues[k];
        FifoAt(after, if k < i then k else k - 1);
      } else {
        FifoNone(after, d);
      }
    }
  }

  lemma FifoAppend(queues: seq<Queue>, q: Queue, d: LinkId)
    requires DistinctQueues(queues) && Find(queues, q.addr) == |queues|
    ensures DistinctQueues(queues + [q])
    ensures Fifo(queues + [q], d) == if d == q.addr then Ids(q.packets) else Fifo(queues, d)
  {
    var after := queues + [q];
    if d == q.addr {
      assert after[|queues|] == q;
      FifoAt(after, |queues|);
    } else {
      var k := Find(queues, d);
      if k < |queues| {
        assert after[k] == queues[k];
        FifoAt(after, k);
      } else {
        FifoNone(after, d);
      }
    }
  }

  /** Completion order depends on destinations and acceptance only. */
  lemma {:induction false} CompletedSame(log: seq<Callback>, jobs: seq<Job>, jobs': seq<Job>, d: LinkId)
    requires |jobs| <= |jobs'|
    requires forall k :: 0 <= k < |jobs| ==> jobs'[k].dest == jobs[k].dest && jobs'[k].accepted == jobs[k].accepted
    requires forall k :: 0 <= k < |log| ==> log[k].id < |jobs|
    ensures CompletedFor(log, jobs', d) == CompletedFor(log, jobs, d)
  {
    if log != [] {
      CompletedSame(log[..|log| - 1], jobs, jobs', d);
    }
  }

  lemma {:induction false} AcceptedSame(jobs: seq<Job>, jobs': seq<Job>, d: LinkId)
    requires |jobs| == |jobs'|
    requires forall k :: 0 <= k < |jobs| ==> jobs'[k].dest == jobs[k].dest && jobs'[k].accepted == jobs[k].accepted
    ensures AcceptedFor(jobs', d) == AcceptedFor(jobs, d)
  {
    if jobs != [] {
      AcceptedSame(jobs[..|jobs| - 1], jobs'[..|jobs| - 1], d);
    }
  }

  // ---- a packet is handed over ----

  lemma DelayBelow(collisions: nat, period: nat, rnd: nat)
    requires period > 0
    ensures Delay(collisions, period, rnd) < BackoffSpan(collisions, period) <= MaxTransmissionDelay(period)
  {
    assert Pow2(5) == 2 * Pow2(4) == 4 * Pow2(3);
    assert Pow2(3) == 2 * Pow2(2) == 4 * Pow2(1) == 8 * Pow2(0);
    var be := Min(collisions + CSMA_MIN_BE, CSMA_MAX_BE);
    assert be == 3 || be == 4 || be == 5;
    assert BackoffSpan(collisions, period) == (Pow2(be) - 1) * period;
    assert Pow2(be) - 1 == 7 || Pow2(be) - 1 == 15 || Pow2(be) - 1 == 31;
  }

  /** The queue after the packet joined it. */
  function Joined(lim: Limits, q: Queue, p: Packet, rnd: nat): Queue
  {
    Queue(q.addr, q.transmissions, q.collisions, q.packets + [p],
          if q.packets == [] then Some(Delay(q.collisions, lim.period, rnd)) else q.timer)
  }

  /** The list a packet joins: with a fresh entry at the end for a new destination. */
  function Entries(queues: seq<Queue>, d: LinkId): (r: seq<Queue>)
    ensures Find(queues, d) < |r| && r[Find(queues, d)].addr == d
  {
    var i := Find(queues, d);
    if i < |queues| then queues else queues + [Queue(d, 0, 0, [], None)]
  }

  lemma EntriesFifo(queues: seq<Queue>, d: LinkId, d': LinkId)
    requires DistinctQueues(queues)
    ensures DistinctQueues(Entries(queues, d))
    ensures Fifo(Entries(queues, d), d') == Fifo(queues, d')
  {
    if Find(queues, d) == |queues| {
      FifoAppend(queues, Queue(d, 0, 0, [], None), d');
      FifoNone(queues, d);
    }
  }

  lemma JoinCounts(lim: Limits, queues: seq<Queue>, d: LinkId, p: Packet, rnd: nat, id: Option<nat>)
    ensures var i, es := Find(queues, d), Entries(queues, d);
            Queued(es[i := Joined(lim, es[i], p, rnd)], id) == Queued(queues, id) + CountIn([p], id)
  {
    var i, es := Find(queues, d), Entries(queues, d);
    if i == |queues| {
      assert es[..i] == queues;
    }
    CountAppend(es[i].packets, p, id);
    QueuedUpdate(es, i, Joined(lim, es[i], p, rnd), id);
  }

  lemma AcceptEffect(lim: Limits, s: State, r: Request, seed: Byte, rnd: nat)
    requires Accepts(lim, s, r)
    ensures var i, es, s' := Find(s.queues, r.dest), Entries(s.queues, r.dest), Submit(lim, s, r, seed, rnd);
            && s'.queues == es[i := Joined(lim, es[i], Packet(r.id, NextSeqno(s, seed), MaxTx(r.maxTxAttr)), rnd)]
            && s'.packets == s.packets + 1 && s'.metadata == s.metadata + 1 && s'.bufs == s.bufs + 1
            && s'.entries == s.entries + |es| - |s.queues|
            && s'.log == s.log
  {
    var i, es, s' := Find(s.queues, r.dest), Entries(s.queues, r.dest), Submit(lim, s, r, seed, rnd);
    assert s'.queues == es[i := Joined(lim, es[i], Packet(r.id, NextSeqno(s, seed), MaxTx(r.maxTxAttr)), rnd)];
  }

  lemma RefuseEffect(lim: Limits, s: State, r: Request, seed: Byte, rnd: nat)
    requires !Accepts(lim, s, r) && lim.perNeighbour > 0
    requires var i := Find(s.queues, r.dest); i < |s.queues| ==> s.queues[i].packets != []
    ensures var s' := Submit(lim, s, r, seed, rnd);
            && s'.queues == s.queues && s'.packets == s.packets && s'.metadata == s.metadata && s'.bufs == s.bufs
            && s'.entries == s.entries && s'.log == s.log + [Callback(r.id, Err, 1)]
  {
    var i := Find(s.queues, r.dest);
    if i == |s.queues| {
      assert Without(s.queues + [Queue(r.dest, 0, 0, [], None)], i) == s.queues;
    }
  }

  lemma DestNonEmpty(lim: Limits, s: State, dest: LinkId)
    requires Conserved(lim, s) && Find(s.queues, dest) < |s.queues|
    ensures s.queues[Find(s.queues, dest)].packets != []
  {
    assert QueueOk(lim, s.queues[Find(s.queues, dest)]);
  }

  lemma AcceptConserves(lim: Limits, s: State, r: Request, seed: Byte, rnd: nat)
    requires Conserved(lim, s) && Accepts(lim, s, r) && lim.period > 0
    ensures Conserved(lim, Submit(lim, s, r, seed, rnd))
  {
    var i, es, s' := Find(s.queues, r.dest), Entries(s.queues, r.dest), Submit(lim, s, r, seed, rnd);
    var p := Packet(r.id, NextSeqno(s, seed), MaxTx(r.maxTxAttr));
    AcceptEffect(lim, s, r, seed, rnd);
    JoinCounts(lim, s.queues, r.dest, p, rnd, None);
    JoinFifo(lim, s.queues, r.dest, p, rnd, 0);
    DelayBelow(0, lim.period, rnd);
    forall j | 0 <= j < |s'.queues|
      ensures QueueOk(lim, s'.queues[j])
    {
      assert j < |s.queues| ==> QueueOk(lim, s.queues[j]);
    }
  }

  /** A new job at the end of the list leaves every old callback true. */
  lemma LogGrows(jobs: seq<Job>, j: Job, log: seq<Callback>)
    requires LogOk(jobs, log)
    ensures LogOk(jobs + [j], log)
  {
    forall k | 0 <= k < |log|
      ensures CallbackOk(jobs + [j], log[k])
    {
      assert CallbackOk(jobs, log[k]);
    }
  }

  lemma LogAppend(jobs: seq<Job>, log: seq<Callback>, c: Callback)
    requires LogOk(jobs, log) && CallbackOk(jobs, c)
    ensures LogOk(jobs, log + [c])
  {
    forall k | 0 <= k < |log + [c]|
      ensures CallbackOk(jobs, (log + [c])[k])
    {
      assert k < |log| ==> CallbackOk(jobs, log[k]);
    }
  }

  lemma LoggedAppend(log: seq<Callback>, c: Callback, k: nat)
    ensures Logged(log + [c], k) == Logged(log, k) + if c.id == k then 1 else 0
  {
    assert (log + [c])[..|log|] == log;
  }

  lemma BoundedGrows(jobs: seq<Job>, j: Job)
    requires Bounded(jobs) && |j.tried| == 0
    ensures Bounded(jobs + [j])
  {
  }

  /** Both sides of the order equation for one more job. */
  lemma OrderGrows(log: seq<Callback>, jobs: seq<Job>, j: Job, d: LinkId)
    requires LogOk(jobs, log)
    ensures AcceptedFor(jobs + [j], d) == AcceptedFor(jobs, d) + if j.accepted && j.dest == d then [|jobs|] else []
    ensures CompletedFor(log, jobs + [j], d) == CompletedFor(log, jobs, d)
  {
    assert (jobs + [j])[..|jobs|] == jobs;
    AcceptedSame(jobs, (jobs + [j])[..|jobs|], d);
    forall k | 0 <= k < |log|
      ensures log[k].id < |jobs|
    {
      assert CallbackOk(jobs, log[k]);
    }
    CompletedSame(log, jobs, jobs + [j], d);
  }

  lemma OrderAppend(log: seq<Callback>, jobs: seq<Job>, c: Callback, d: LinkId)
    ensures CompletedFor(log + [c], jobs, d) == CompletedFor(log, jobs, d) + if IsFor(jobs, c.id, d) then [c.id] else []
  {
    assert (log + [c])[..|log|] == log;
  }

  lemma JoinFifo(lim: Limits, queues: seq<Queue>, dest: LinkId, p: Packet, rnd: nat, d: LinkId)
    requires DistinctQueues(queues)
    ensures var i, es := Find(queues, dest), Entries(queues, dest);
            var after := es[i := Joined(lim, es[i], p, rnd)];
            && DistinctQueues(after)
            && Fifo(after, d) == Fifo(queues, d) + if d == dest then [p.id] else []
  {
    var i, es := Find(queues, dest), Entries(queues, dest);
    EntriesFifo(queues, dest, d);
    FifoUpdate(es, i, Joined(lim, es[i], p, rnd), d);
    FifoAt(es, i);
    assert Ids(Joined(lim, es[i], p, rnd).packets) == Ids(es[i].packets) + [p.id];
  }

  lemma AcceptOrder(lim: Limits, w: World, w': World, dest: LinkId, j: Job, p: Packet, rnd: nat, d: LinkId)
    requires Inv(lim, w) && p.id == |w.jobs| && j.dest == dest && j.accepted
    requires w'.jobs == w.jobs + [j] && w'.s.log == w.s.log
    requires var i, es := Find(w.s.queues, dest), Entries(w.s.queues, dest);
             w'.s.queues == es[i := Joined(lim, es[i], p, rnd)]
    ensures CompletedFor(w'.s.log, w'.jobs, d) + Fifo(w'.s.queues, d) == AcceptedFor(w'.jobs, d)
  {
    JoinFifo(lim, w.s.queues, dest, p, rnd, d);
    OrderGrows(w.s.log, w.jobs, j, d);
    assert CompletedFor(w.s.log, w.jobs, d) + Fifo(w.s.queues, d) == AcceptedFor(w.jobs, d);
  }

  /** The job of a packet that was just accepted. */
  ghost predicate IsJobOf(j: Job, dest: LinkId, p: Packet)
  {
    j.dest == dest && j.maxTx == p.maxTx && j.seqno == p.seqno && j.accepted && j.tried == []
  }

  /** What an accepted packet changes. */
  ghost predicate AcceptStep(lim: Limits, w: World, w': World, dest: LinkId, j: Job, p: Packet, rnd: nat)
  {
    var i, es := Find(w.s.queues, dest), Entries(w.s.queues, dest);
    && p.id == |w.jobs| && p.maxTx > 0 && p.seqno != 0
    && IsJobOf(j, dest, p) && w'.jobs == w.jobs + [j]
    && w'.s.queues == es[i := Joined(lim, es[i], p, rnd)]
    && w'.s.log == w.s.log
  }

  lemma AcceptCensus(lim: Limits, w: World, w': World, dest: LinkId, j: Job, p: Packet, rnd: nat)
    requires Census(w) && AcceptStep(lim, w, w', dest, j, p, rnd)
    ensures Census(w')
  {
    forall h: nat
      ensures Logged(w'.s.log, h) + Queued(w'.s.queues, Some(h)) == if h < |w'.jobs| then 1 else 0
    {
      JoinCounts(lim, w.s.queues, dest, p, rnd, Some(h));
    }
  }

  lemma AcceptInOrder(lim: Limits, w: World, w': World, dest: LinkId, j: Job, p: Packet, rnd: nat)
    requires Inv(lim, w) && AcceptStep(lim, w, w', dest, j, p, rnd)
    ensures InOrder(w')
  {
    forall d
      ensures CompletedFor(w'.s.log, w'.jobs, d) + Fifo(w'.s.queues, d) == AcceptedFor(w'.jobs, d)
    {
      AcceptOrder(lim, w, w', dest, j, p, rnd, d);
    }
  }

  lemma AcceptKeeps(lim: Limits, w: World, w': World, dest: LinkId, j: Job, p: Packet, rnd: nat)
    requires Inv(lim, w) && AcceptStep(lim, w, w', dest, j, p, rnd) && Conserved(lim, w'.s)
    ensures Inv(lim, w')
  {
    OwnedGrows(lim, w, w', Entries(w.s.queues, dest), Find(w.s.queues, dest), p, rnd);
    LogGrows(w.jobs, j, w.s.log);
    BoundedGrows(w.jobs, j);
    AcceptCensus(lim, w, w', dest, j, p, rnd);
    AcceptInOrder(lim, w, w', dest, j, p, rnd);
  }

  lemma SubmitAccepted(lim: Limits, w: World, e: Event)
    requires Inv(lim, w) && e.HandedOver? && lim.period > 0 && Accepts(lim, w.s, RequestOf(w, e))
    ensures Inv(lim, After(lim, w, e))
  {
    var r := RequestOf(w, e);
    AcceptEffect(lim, w.s, r, e.seed, e.rnd);
    AcceptConserves(lim, w.s, r, e.seed, e.rnd);
    var j := Job(e.dest, e.attr, MaxTx(e.attr), NextSeqno(w.s, e.seed), true, []);
    AcceptKeeps(lim, w, After(lim, w, e), e.dest, j, Packet(r.id, NextSeqno(w.s, e.seed), MaxTx(e.attr)), e.rnd);
  }

  lemma OwnedGrows(lim: Limits, w: World, w': World, old': seq<Queue>, i: nat, p: Packet, rnd: nat)
    requires AllOwned(w) && i < |old'| && w'.s.queues == old'[i := Joined(lim, old'[i], p, rnd)]
    requires forall j :: 0 <= j < |old'| && j < |w.s.queues| ==> old'[j] == w.s.queues[j]
    requires |old'| == |w.s.queues| || (i == |w.s.queues| && |old'| == i + 1 && old'[i].packets == [])
    requires |w'.jobs| == |w.jobs| + 1 && w'.jobs[..|w.jobs|] == w.jobs
    requires p.id == |w.jobs| && IsJobOf(w'.jobs[p.id], old'[i].addr, p)
    ensures AllOwned(w')
  {
    forall j | 0 <= j < |w'.s.queues|
      ensures Owned(w'.jobs, w'.s.queues[j])
    {
      assert forall k :: 0 <= k < |w.jobs| ==> w'.jobs[k] == w'.jobs[..|w.jobs|][k];
      if j < |w.s.queues| {
        assert Owned(w.jobs, w.s.queues[j]);
      }
    }
  }

  lemma RefusedOwned(w: World, j: Job)
    requires AllOwned(w)
    ensures AllOwned(World(w.s, w.jobs + [j]))
  {
    forall i | 0 <= i < |w.s.queues|
      ensures Owned(w.jobs + [j], w.s.queues[i])
    {
      assert Owned(w.jobs, w.s.queues[i]);
    }
  }

  /** What a refused packet changes. */
  ghost predicate RefuseStep(w: World, w': World, j: Job)
  {
    && !j.accepted && |j.tried| == 0 && w'.jobs == w.jobs + [j]
    && w'.s.queues == w.s.queues && w'.s.packets == w.s.packets && w'.s.metadata == w.s.metadata
    && w'.s.bufs == w.s.bufs && w'.s.entries == w.s.entries
    && w'.s.log == w.s.log + [Callback(|w.jobs|, Err, 1)]
  }

  lemma RefuseCensus(w: World, w': World, j: Job)
    requires Census(w) && RefuseStep(w, w', j)
    ensures Census(w')
  {
    forall h: nat
      ensures Logged(w'.s.log, h) + Queued(w'.s.queues, Some(h)) == if h < |w'.jobs| then 1 else 0
    {
      LoggedAppend(w.s.log, Callback(|w.jobs|, Err, 1), h);
    }
  }

  lemma RefuseInOrder(w: World, w': World, j: Job)
    requires InOrder(w) && LogOk(w.jobs, w.s.log) && RefuseStep(w, w', j)
    ensures InOrder(w')
  {
    forall d
      ensures CompletedFor(w'.s.log, w'.jobs, d) + Fifo(w'.s.queues, d) == AcceptedFor(w'.jobs, d)
    {
      OrderGrows(w.s.log, w.jobs, j, d);
      OrderAppend(w.s.log, w.jobs + [j], Callback(|w.jobs|, Err, 1), d);
      assert CompletedFor(w.s.log, w.jobs, d) + Fifo(w.s.queues, d) == AcceptedFor(w.jobs, d);
    }
  }

  lemma RefuseKeeps(lim: Limits, w: World, w': World, j: Job)
    requires Inv(lim, w) && RefuseStep(w, w', j)
    ensures Inv(lim, w')
  {
    RefusedOwned(w, j);
    BoundedGrows(w.jobs, j);
    LogGrows(w.jobs, j, w.s.log);
    LogAppend(w.jobs + [j], w.s.log, Callback(|w.jobs|, Err, 1));
    RefuseCensus(w, w', j);
    RefuseInOrder(w, w', j);
  }

  lemma SubmitRefused(lim: Limits, w: World, e: Event)
    requires Inv(lim, w) && e.HandedOver? && lim.perNeighbour > 0 && !Accepts(lim, w.s, RequestOf(w, e))
    ensures Inv(lim, After(lim, w, e))
  {
    if Find(w.s.queues, e.dest) < |w.s.queues| {
      DestNonEmpty(lim, w.s, e.dest);
    }
    RefuseEffect(lim, w.s, RequestOf(w, e), e.seed, e.rnd);
    RefuseKeeps(lim, w, After(lim, w, e), Job(e.dest, e.attr, MaxTx(e.attr), NextSeqno(w.s, e.seed), false, []));
  }

  // ---- a transmit timer fires ----

  /** One attempt raises the rank of a packet that stays, and uses up the whole budget of one that is given up. */
  lemma AttemptCounts(q: Queue, result: Status)
    requires q.packets != [] && q.collisions <= CSMA_MAX_BACKOFF && q.transmissions < q.packets[0].maxTx && result != Deferred
    ensures var c := Counted(q, result);
            && c.packets == q.packets && c.addr == q.addr && c.timer == q.timer
            && c.collisions <= CSMA_MAX_BACKOFF && c.transmissions <= q.packets[0].maxTx
            && (result == Ok || result == NoAck || result == Collision ==> Rank(c) > Rank(q))
            && (result == Collision ==> Rank(c) == Rank(q) + 1)
            && (result == Ok ==> c.transmissions > 0)
            && Rank(q) < (CSMA_MAX_BACKOFF + 1) * q.packets[0].maxTx
            && (!Finishes(c, result) ==> c.transmissions < q.packets[0].maxTx && Rank(c) > Rank(q))
            && (Finishes(c, result) && (result == NoAck || result == Collision) ==> c.transmissions == q.packets[0].maxTx)
  {
  }

  /** The queue after a retry and after its head is gone. */
  function Retried(lim: Limits, q: Queue, result: Status, rnd: nat): Queue
  {
    var c := Counted(q, result);
    c.(timer := Some(Delay(c.collisions, lim.period, rnd)))
  }

  function Popped(lim: Limits, q: Queue, rnd: nat): Queue
    requires q.packets != []
  {
    Queue(q.addr, 0, 0, q.packets[1..], Some(Delay(0, lim.period, rnd)))
  }

  lemma FireRetries(lim: Limits, s: State, i: nat, result: Status, rnd: nat)
    requires i < |s.queues| && s.queues[i].packets != [] && result != Deferred
    requires s.packets > 0 && s.metadata > 0 && s.bufs > 0 && s.entries > 0
    requires !Finishes(Counted(s.queues[i], result), result)
    ensures var q := Retried(lim, s.queues[i], result, rnd);
            Fire(s, i, result, lim.period, rnd) == s.(queues := s.queues[i := q], delay := q.timer.value)
  {
    var q := Retried(lim, s.queues[i], result, rnd);
    assert Fire(s, i, result, lim.period, rnd).queues == s.queues[i := q];
  }

  lemma FireFinishes(lim: Limits, s: State, i: nat, result: Status, rnd: nat)
    requires i < |s.queues| && s.queues[i].packets != [] && result != Deferred
    requires s.packets > 0 && s.metadata > 0 && s.bufs > 0 && s.entries > 0
    requires Finishes(Counted(s.queues[i], result), result)
    ensures var q, s' := s.queues[i], Fire(s, i, result, lim.period, rnd);
            && s'.packets == s.packets - 1 && s'.metadata == s.metadata - 1 && s'.bufs == s.bufs - 1
            && s'.log == s.log + [Callback(q.packets[0].id, result, Counted(q, result).transmissions)]
            && (if |q.packets| > 1 then s'.queues == s.queues[i := Popped(lim, q, rnd)] && s'.entries == s.entries
                else s'.queues == Without(s.queues, i) && s'.entries == s.entries - 1)
  {
    var q, s' := s.queues[i], Fire(s, i, result, lim.period, rnd);
    if |q.packets| > 1 {
      assert s'.queues == s.queues[i := Popped(lim, q, rnd)];
    } else {
      assert s'.queues == Without(s.queues, i);
    }
  }

  /** Attempt counts change nothing else. */
  ghost predicate OneMoreAttempt(jobs: seq<Job>, jobs': seq<Job>, k: nat)
  {
    k < |jobs| == |jobs'| && jobs' == jobs[k := jobs[k].(tried := jobs'[k].tried)] && |jobs'[k].tried| == |jobs[k].tried| + 1
  }

  /** The other queues hold other packets. */
  lemma OthersOwned(w: World, jobs': seq<Job>, i: nat, j: nat)
    requires AllOwned(w) && DistinctQueues(w.s.queues) && i < |w.s.queues| && j < |w.s.queues| && i != j
    requires w.s.queues[i].packets != [] && OneMoreAttempt(w.jobs, jobs', w.s.queues[i].packets[0].id)
    ensures Owned(jobs', w.s.queues[j])
  {
    assert Owned(w.jobs, w.s.queues[i]) && Owned(w.jobs, w.s.queues[j]);
    assert w.s.queues[i].addr != w.s.queues[j].addr;
  }

  /** A callback of another job, and of the job itself, survives one more attempt. */
  lemma LogSurvives(jobs: seq<Job>, jobs': seq<Job>, k: nat, log: seq<Callback>)
    requires LogOk(jobs, log) && OneMoreAttempt(jobs, jobs', k) && jobs[k].accepted
    ensures LogOk(jobs', log)
  {
    forall j | 0 <= j < |log|
      ensures CallbackOk(jobs', log[j])
    {
      assert CallbackOk(jobs, log[j]);
    }
  }

  /** Another attempt changes neither order. */
  lemma OrderSurvives(log: seq<Callback>, jobs: seq<Job>, jobs': seq<Job>, k: nat, d: LinkId)
    requires LogOk(jobs, log) && OneMoreAttempt(jobs, jobs', k)
    ensures CompletedFor(log, jobs', d) == CompletedFor(log, jobs, d)
    ensures AcceptedFor(jobs', d) == AcceptedFor(jobs, d)
  {
    forall j | 0 <= j < |log|
      ensures log[j].id < |jobs|
    {
      assert CallbackOk(jobs, log[j]);
    }
    CompletedSame(log, jobs, jobs', d);
    AcceptedSame(jobs, jobs', d);
  }

  /** The head is within its budget before the attempt, and so at most at it afterwards. */
  lemma BoundedSurvives(lim: Limits, jobs: seq<Job>, jobs': seq<Job>, q: Queue)
    requires Bounded(jobs) && QueueOk(lim, q) && Owned(jobs, q) && OneMoreAttempt(jobs, jobs', q.packets[0].id)
    ensures Bounded(jobs')
  {
    var k, p := q.packets[0].id, q.packets[0];
    assert jobs[k].maxTx == p.maxTx && |jobs[k].tried| <= Rank(q);
    assert Rank(q) < (CSMA_MAX_BACKOFF + 1) * p.maxTx;
    assert |jobs'[k].tried| == |jobs[k].tried| + 1 && Budget(jobs'[k]) == (CSMA_MAX_BACKOFF + 1) * p.maxTx;
  }

  lemma RetriedOk(lim: Limits, jobs: seq<Job>, jobs': seq<Job>, q: Queue, result: Status, rnd: nat)
    requires QueueOk(lim, q) && Owned(jobs, q) && result != Deferred && lim.period > 0
    requires !Finishes(Counted(q, result), result) && OneMoreAttempt(jobs, jobs', q.packets[0].id)
    ensures QueueOk(lim, Retried(lim, q, result, rnd)) && Owned(jobs', Retried(lim, q, result, rnd))
  {
    AttemptCounts(q, result);
    DelayBelow(Counted(q, result).collisions, lim.period, rnd);
  }

  /** The list after a retry holds the same packets in the same order. */
  lemma RetryList(queues: seq<Queue>, i: nat, q': Queue, d: LinkId)
    requires i < |queues| && DistinctQueues(queues) && q'.addr == queues[i].addr && q'.packets == queues[i].packets
    ensures DistinctQueues(queues[i := q'])
    ensures Fifo(queues[i := q'], d) == Fifo(queues, d)
  {
    FifoUpdate(queues, i, q', d);
    FifoAt(queues, i);
  }

  lemma RetryQueuesOk(lim: Limits, w: World, jobs': seq<Job>, i: nat, result: Status, rnd: nat)
    requires Conserved(lim, w.s) && AllOwned(w) && lim.period > 0 && result != Deferred
    requires i < |w.s.queues| && w.s.queues[i].packets != [] && OneMoreAttempt(w.jobs, jobs', w.s.queues[i].packets[0].id)
    requires !Finishes(Counted(w.s.queues[i], result), result)
    ensures var qs := w.s.queues[i := Retried(lim, w.s.queues[i], result, rnd)];
            forall j :: 0 <= j < |qs| ==> QueueOk(lim, qs[j]) && Owned(jobs', qs[j])
  {
    var q := w.s.queues[i];
    assert QueueOk(lim, q) && Owned(w.jobs, q);
    RetriedOk(lim, w.jobs, jobs', q, result, rnd);
    forall j | 0 <= j < |w.s.queues| && j != i
      ensures QueueOk(lim, w.s.queues[j]) && Owned(jobs', w.s.queues[j])
    {
      OthersOwned(w, jobs', i, j);
    }
  }

  /** What a retry changes. */
  ghost predicate RetryStep(lim: Limits, w: World, w': World, i: nat, result: Status, rnd: nat)
  {
    && i < |w.s.queues| && w.s.queues[i].packets != [] && result != Deferred
    && !Finishes(Counted(w.s.queues[i], result), result)
    && OneMoreAttempt(w.jobs, w'.jobs, w.s.queues[i].packets[0].id)
    && w'.s.queues == w.s.queues[i := Retried(lim, w.s.queues[i], result, rnd)]
    && w'.s.log == w.s.log
    && w'.s.packets == w.s.packets && w'.s.metadata == w.s.metadata && w'.s.bufs == w.s.bufs && w'.s.entries == w.s.entries
  }

  lemma RetryConserves(lim: Limits, w: World, w': World, i: nat, result: Status, rnd: nat)
    requires Conserved(lim, w.s) && AllOwned(w) && lim.period > 0 && RetryStep(lim, w, w', i, result, rnd)
    ensures Conserved(lim, w'.s) && AllOwned(w')
  {
    var q' := Retried(lim, w.s.queues[i], result, rnd);
    AttemptCounts(w.s.queues[i], result);
    RetryList(w.s.queues, i, q', 0);
    QueuedUpdate(w.s.queues, i, q', None);
    RetryQueuesOk(lim, w, w'.jobs, i, result, rnd);
  }

  lemma RetryCensus(lim: Limits, w: World, w': World, i: nat, result: Status, rnd: nat)
    requires Census(w) && RetryStep(lim, w, w', i, result, rnd)
    ensures Census(w')
  {
    forall h: nat
      ensures Logged(w'.s.log, h) + Queued(w'.s.queues, Some(h)) == if h < |w'.jobs| then 1 else 0
    {
      QueuedUpdate(w.s.queues, i, Retried(lim, w.s.queues[i], result, rnd), Some(h));
    }
  }

  lemma RetryInOrder(lim: Limits, w: World, w': World, i: nat, result: Status, rnd: nat)
    requires Inv(lim, w) && RetryStep(lim, w, w', i, result, rnd)
    ensures InOrder(w')
  {
    forall d
      ensures CompletedFor(w'.s.log, w'.jobs, d) + Fifo(w'.s.queues, d) == AcceptedFor(w'.jobs, d)
    {
      RetryOrder(lim, w, w', i, Retried(lim, w.s.queues[i], result, rnd), d);
    }
  }

  lemma RetryKeeps(lim: Limits, w: World, w': World, i: nat, result: Status, rnd: nat)
    requires Inv(lim, w) && lim.period > 0 && RetryStep(lim, w, w', i, result, rnd)
    ensures Inv(lim, w')
  {
    assert QueueOk(lim, w.s.queues[i]) && Owned(w.jobs, w.s.queues[i]);
    RetryConserves(lim, w, w', i, result, rnd);
    LogSurvives(w.jobs, w'.jobs, w.s.queues[i].packets[0].id, w.s.log);
    BoundedSurvives(lim, w.jobs, w'.jobs, w.s.queues[i]);
    RetryCensus(lim, w, w', i, result, rnd);
    RetryInOrder(lim, w, w', i, result, rnd);
  }

  lemma RetryOrder(lim: Limits, w: World, w': World, i: nat, q': Queue, d: LinkId)
    requires Inv(lim, w) && i < |w.s.queues| && q'.addr == w.s.queues[i].addr && q'.packets == w.s.queues[i].packets
    requires q'.packets != [] && OneMoreAttempt(w.jobs, w'.jobs, q'.packets[0].id)
    requires w'.s.queues == w.s.queues[i := q'] && w'.s.log == w.s.log
    ensures CompletedFor(w'.s.log, w'.jobs, d) + Fifo(w'.s.queues, d) == AcceptedFor(w'.jobs, d)
  {
    RetryList(w.s.queues, i, q', d);
    OrderSurvives(w.s.log, w.jobs, w'.jobs, q'.packets[0].id, d);
    assert CompletedFor(w.s.log, w.jobs, d) + Fifo(w.s.queues, d) == AcceptedFor(w.jobs, d);
  }

  /** What remains of the head's queue is a good queue. */
  lemma PoppedOk(lim: Limits, jobs: seq<Job>, jobs': seq<Job>, q: Queue, rnd: nat)
    requires QueueOk(lim, q) && Owned(jobs, q) && |q.packets| > 1 && lim.period > 0
    requires OneMoreAttempt(jobs, jobs', q.packets[0].id)
    ensures QueueOk(lim, Popped(lim, q, rnd)) && Owned(jobs', Popped(lim, q, rnd))
  {
    DelayBelow(0, lim.period, rnd);
  }

  /** The list after the head of queue `i` is gone. */
  function Shorter(lim: Limits, queues: seq<Queue>, i: nat, rnd: nat): seq<Queue>
    requires i < |queues| && queues[i].packets != []
  {
    if |queues[i].packets| > 1 then queues[i := Popped(lim, queues[i], rnd)] else Without(queues, i)
  }

  lemma ShorterCounts(lim: Limits, queues: seq<Queue>, i: nat, rnd: nat, id: Option<nat>)
    requires i < |queues| && queues[i].packets != []
    ensures Queued(Shorter(lim, queues, i, rnd), id) + (if id == None || id.value == queues[i].packets[0].id then 1 else 0)
         == Queued(queues, id)
  {
    if |queues[i].packets| > 1 {
      QueuedUpdate(queues, i, Popped(lim, queues[i], rnd), id);
    } else {
      QueuedWithout(queues, i, id);
    }
  }

  lemma ShorterFifo(lim: Limits, queues: seq<Queue>, i: nat, rnd: nat, d: LinkId)
    requires i < |queues| && queues[i].packets != [] && DistinctQueues(queues)
    ensures DistinctQueues(Shorter(lim, queues, i, rnd))
    ensures Fifo(queues, d) == (if d == queues[i].addr then [queues[i].packets[0].id] else []) + Fifo(Shorter(lim, queues, i, rnd), d)
  {
    var q := queues[i];
    FifoAt(queues, i);
    assert Ids(q.packets) == [q.packets[0].id] + Ids(q.packets[1..]);
    if |q.packets| > 1 {
      FifoUpdate(queues, i, Popped(lim, q, rnd), d);
    } else {
      FifoWithout(queues, i, d);
    }
  }

  lemma ShorterOk(lim: Limits, w: World, jobs': seq<Job>, i: nat, rnd: nat)
    requires Conserved(lim, w.s) && AllOwned(w) && lim.period > 0
    requires i < |w.s.queues| && w.s.queues[i].packets != [] && OneMoreAttempt(w.jobs, jobs', w.s.queues[i].packets[0].id)
    ensures var qs := Shorter(lim, w.s.queues, i, rnd);
            forall j :: 0 <= j < |qs| ==> QueueOk(lim, qs[j]) && Owned(jobs', qs[j])
  {
    var q, qs := w.s.queues[i], Shorter(lim, w.s.queues, i, rnd);
    assert QueueOk(lim, q) && Owned(w.jobs, q);
    if |q.packets| > 1 {
      PoppedOk(lim, w.jobs, jobs', q, rnd);
    }
    forall j | 0 <= j < |qs|
      ensures QueueOk(lim, qs[j]) && Owned(jobs', qs[j])
    {
      var o := if |q.packets| > 1 || j < i then j else j + 1;
      if o != i {
        assert qs[j] == w.s.queues[o];
        assert QueueOk(lim, w.s.queues[o]);
        OthersOwned(w, jobs', i, o);
      }
    }
  }

  /** The callback of the head after its last attempt. */
  lemma LastCallback(lim: Limits, jobs: seq<Job>, jobs': seq<Job>, q: Queue, result: Status)
    requires QueueOk(lim, q) && Owned(jobs, q) && result != Deferred
    requires Finishes(Counted(q, result), result) && OneMoreAttempt(jobs, jobs', q.packets[0].id)
    ensures CallbackOk(jobs', Callback(q.packets[0].id, result, Counted(q, result).transmissions))
  {
    AttemptCounts(q, result);
  }

  /** What the end of the head of queue `i` changes. */
  ghost predicate FinishStep(lim: Limits, w: World, w': World, i: nat, result: Status, rnd: nat)
  {
    && i < |w.s.queues| && w.s.queues[i].packets != [] && result != Deferred
    && Finishes(Counted(w.s.queues[i], result), result)
    && OneMoreAttempt(w.jobs, w'.jobs, w.s.queues[i].packets[0].id)
    && w'.s.queues == Shorter(lim, w.s.queues, i, rnd)
    && w'.s.log == w.s.log + [LastCall(w.s.queues[i], result)]
    && w'.s.packets == w.s.packets - 1 && w'.s.metadata == w.s.metadata - 1 && w'.s.bufs == w.s.bufs - 1
    && w'.s.entries == if |w.s.queues[i].packets| > 1 then w.s.entries else w.s.entries - 1
  }

  function LastCall(q: Queue, result: Status): Callback
    requires q.packets != []
  {
    Callback(q.packets[0].id, result, Counted(q, result).transmissions)
  }

  lemma FinishConserves(lim: Limits, w: World, w': World, i: nat, result: Status, rnd: nat)
    requires Conserved(lim, w.s) && AllOwned(w) && lim.period > 0 && FinishStep(lim, w, w', i, result, rnd)
    ensures Conserved(lim, w'.s) && AllOwned(w')
  {
    ShorterCounts(lim, w.s.queues, i, rnd, None);
    ShorterFifo(lim, w.s.queues, i, rnd, 0);
    ShorterOk(lim, w, w'.jobs, i, rnd);
  }

  lemma FinishCensus(lim: Limits, w: World, w': World, i: nat, result: Status, rnd: nat)
    requires Census(w) && FinishStep(lim, w, w', i, result, rnd)
    ensures Census(w')
  {
    forall h: nat
      ensures Logged(w'.s.log, h) + Queued(w'.s.queues, Some(h)) == if h < |w'.jobs| then 1 else 0
    {
      ShorterCounts(lim, w.s.queues, i, rnd, Some(h));
      LoggedAppend(w.s.log, LastCall(w.s.queues[i], result), h);
    }
  }

  lemma FinishLog(lim: Limits, w: World, w': World, i: nat, result: Status, rnd: nat)
    requires Inv(lim, w) && FinishStep(lim, w, w', i, result, rnd)
    ensures LogOk(w'.jobs, w'.s.log) && Bounded(w'.jobs)
  {
    var q := w.s.queues[i];
    assert QueueOk(lim, q) && Owned(w.jobs, q);
    LogSurvives(w.jobs, w'.jobs, q.packets[0].id, w.s.log);
    LastCallback(lim, w.jobs, w'.jobs, q, result);
    LogAppend(w'.jobs, w.s.log, LastCall(q, result));
    BoundedSurvives(lim, w.jobs, w'.jobs, q);
  }

  lemma FinishOrder(lim: Limits, w: World, w': World, i: nat, rnd: nat, c: Callback, d: LinkId)
    requires Inv(lim, w) && i < |w.s.queues| && w.s.queues[i].packets != [] && c.id == w.s.queues[i].packets[0].id
    requires OneMoreAttempt(w.jobs, w'.jobs, c.id)
    requires w'.s.queues == Shorter(lim, w.s.queues, i, rnd) && w'.s.log == w.s.log + [c]
    ensures CompletedFor(w'.s.log, w'.jobs, d) + Fifo(w'.s.queues, d) == AcceptedFor(w'.jobs, d)
  {
    var q := w.s.queues[i];
    assert Owned(w.jobs, q) && IsFor(w.jobs, c.id, q.addr);
    ShorterFifo(lim, w.s.queues, i, rnd, d);
    OrderSurvives(w.s.log, w.jobs, w'.jobs, c.id, d);
    OrderAppend(w.s.log, w'.jobs, c, d);
    assert IsFor(w'.jobs, c.id, d) <==> d == q.addr;
    assert CompletedFor(w.s.log, w.jobs, d) + Fifo(w.s.queues, d) == AcceptedFor(w.jobs, d);
    MoveHead(CompletedFor(w.s.log, w.jobs, d), Fifo(w.s.queues, d), Fifo(w'.s.queues, d), if IsFor(w'.jobs, c.id, d) then [c.id] else []);
  }

  lemma MoveHead(done: seq<nat>, queue: seq<nat>, rest: seq<nat>, head: seq<nat>)
    requires queue == head + rest
    ensures (done + head) + rest == done + queue
  {
  }

  lemma FinishInOrder(lim: Limits, w: World, w': World, i: nat, result: Status, rnd: nat)
    requires Inv(lim, w) && FinishStep(lim, w, w', i, result, rnd)
    ensures InOrder(w')
  {
    forall d
      ensures CompletedFor(w'.s.log, w'.jobs, d) + Fifo(w'.s.queues, d) == AcceptedFor(w'.jobs, d)
    {
      FinishOrder(lim, w, w', i, rnd, LastCall(w.s.queues[i], result), d);
    }
  }

  lemma FinishKeeps(lim: Limits, w: World, w': World, i: nat, result: Status, rnd: nat)
    requires Inv(lim, w) && lim.period > 0 && FinishStep(lim, w, w', i, result, rnd)
    ensures Inv(lim, w')
  {
    FinishConserves(lim, w, w', i, result, rnd);
    FinishLog(lim, w, w', i, result, rnd);
    FinishCensus(lim, w, w', i, result, rnd);
    FinishInOrder(lim, w, w', i, result, rnd);
  }

  /** A timer that fires is one of the two steps. */
  lemma FireIsStep(lim: Limits, w: World, e: Event)
    requires e.TimerFired? && CanHappen(w, e)
    ensures var w', result := After(lim, w, e), SendResult(e.radio);
            if Finishes(Counted(w.s.queues[e.queue], result), result) then FinishStep(lim, w, w', e.queue, result, e.rnd)
            else RetryStep(lim, w, w', e.queue, result, e.rnd)
  {
    var result := SendResult(e.radio);
    SentMeansAcknowledged(e.radio);
    if Finishes(Counted(w.s.queues[e.queue], result), result) {
      FireFinishes(lim, w.s, e.queue, result, e.rnd);
    } else {
      FireRetries(lim, w.s, e.queue, result, e.rnd);
    }
  }

  lemma FireKeeps(lim: Limits, w: World, e: Event)
    requires Inv(lim, w) && e.TimerFired? && CanHappen(w, e) && lim.period > 0
    ensures Inv(lim, After(lim, w, e))
  {
    var w', result := After(lim, w, e), SendResult(e.radio);
    FireIsStep(lim, w, e);
    if Finishes(Counted(w.s.queues[e.queue], result), result) {
      FinishKeeps(lim, w, w', e.queue, result, e.rnd);
    } else {
      RetryKeeps(lim, w, w', e.queue, result, e.rnd);
    }
  }

  lemma StepKeeps(lim: Limits, w: World, w': World)
    requires Inv(lim, w) && Happens(lim, w, w') && lim.perNeighbour > 0 && lim.period > 0
    ensures Inv(lim, w')
  {
    var e :| CanHappen(w, e) && w' == After(lim, w, e);
    if e.TimerFired? {
      FireKeeps(lim, w, e);
    } else if Accepts(lim, w.s, RequestOf(w, e)) {
      SubmitAccepted(lim, w, e);
    } else {
      SubmitRefused(lim, w, e);
    }
  }

  lemma {:induction false} RunKeeps(lim: Limits, run: seq<World>, i: nat)
    requires IsRun(lim, run) && i < |run|
    ensures Inv(lim, run[i])
  {
    if i > 0 {
      RunKeeps(lim, run, i - 1);
      assert Follows(lim, run, i - 1);
      StepKeeps(lim, run[i - 1], run[i]);
    }
  }
}
