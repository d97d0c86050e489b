/**
 * What the air shows and what comes of it, over whole runs of the CSMA queue: sequence numbers,
 * acknowledgements, retries, refusals and backoff.
 */
module CsmaRadio {
  import opened Types
  import opened Csma
  import opened CsmaRuns
  import CsmaTheorems

  // ---- sequence numbers ----

  /** The number `k` hand-overs after `first`: 1 to 255 in a circle. */
  function SeqnoAfter(first: Byte, k: nat): (r: Byte)
    requires first > 0
    ensures r > 0
  {
    (first - 1 + k) % 255 + 1
  }

  lemma SeqnoNext(first: Byte, k: nat)
    requires first > 0
    ensures SeqnoAfter(first, 0) == first
    ensures SeqnoAfter(first, k + 1) == if SeqnoAfter(first, k) == 255 then 1 else SeqnoAfter(first, k) + 1
  {
    CircleNext(first - 1 + k);
  }

  lemma CircleNext(x: nat)
    ensures (x + 1) % 255 == if x % 255 == 254 then 0 else x % 255 + 1
  {
  }

  lemma SeqnoSame(first: Byte, k: nat, l: nat)
    requires first > 0 && k <= l
    ensures SeqnoAfter(first, l) == SeqnoAfter(SeqnoAfter(first, k), l - k)
    ensures SeqnoAfter(first, k) == SeqnoAfter(first, l) <==> (l - k) % 255 == 0
  {
    var x, d := first - 1 + k, l - k;
    assert (x % 255 + d) % 255 == (x + d) % 255;
    if (x + d) % 255 == x % 255 {
      assert d == 255 * ((x + d) / 255 - x / 255);
    }
    if d % 255 == 0 {
      assert x + d == x + 255 * (d / 255);
    }
  }

  /** The counter is one past the last number given, and numbers follow one another. */
  ghost predicate SeqInv(w: World)
  {
    && (w.s.initialized <==> w.jobs != [])
    && (w.jobs != [] ==> w.jobs[0].seqno > 0 && w.s.seqno == (w.jobs[|w.jobs| - 1].seqno + 1) % 256)
    && forall k :: 0 <= k < |w.jobs| ==> w.jobs[k].seqno == SeqnoAfter(w.jobs[0].seqno, k)
  }

  lemma SubmitNumbers(lim: Limits, s: State, r: Request, seed: Byte, rnd: nat)
    ensures var s' := Submit(lim, s, r, seed, rnd); s'.initialized && s'.seqno == (NextSeqno(s, seed) + 1) % 256
  {
  }

  lemma FireKeepsNumber(lim: Limits, w: World, e: Event)
    requires e.TimerFired? && CanHappen(w, e)
    ensures var w' := After(lim, w, e);
            && w'.s.initialized == w.s.initialized && w'.s.seqno == w.s.seqno
            && |w'.jobs| == |w.jobs| && forall k :: 0 <= k < |w.jobs| ==> w'.jobs[k].seqno == w.jobs[k].seqno
  {
  }

  lemma HandOverNumber(lim: Limits, w: World, e: Event)
    requires SeqInv(w) && e.HandedOver?
    ensures SeqInv(After(lim, w, e))
    ensures w.jobs == [] ==> After(lim, w, e).jobs[0].seqno == if e.seed == 0 then 1 else e.seed
  {
    SubmitNumbers(lim, w.s, RequestOf(w, e), e.seed, e.rnd);
    if w.jobs != [] {
      var first, l := w.jobs[0].seqno, |w.jobs| - 1;
      SeqnoNext(first, l);
    } else {
      SeqnoNext(NextSeqno(w.s, e.seed), 0);
    }
  }

  lemma FireNumber(lim: Limits, w: World, e: Event)
    requires SeqInv(w) && e.TimerFired? && CanHappen(w, e)
    ensures SeqInv(After(lim, w, e))
  {
    FireKeepsNumber(lim, w, e);
  }

  lemma SeqStep(lim: Limits, w: World, w': World)
    requires SeqInv(w) && Happens(lim, w, w')
    ensures SeqInv(w')
  {
    var e :| CanHappen(w, e) && w' == After(lim, w, e);
    if e.HandedOver? {
      HandOverNumber(lim, w, e);
    } else {
      FireNumber(lim, w, e);
    }
  }

  lemma {:induction false} RunNumbers(lim: Limits, run: seq<World>, i: nat)
    requires IsRun(lim, run) && i < |run|
    ensures SeqInv(run[i])
  {
    if i > 0 {
      RunNumbers(lim, run, i - 1);
      assert Follows(lim, run, i - 1);
      SeqStep(lim, run[i - 1], run[i]);
    }
  }

  /**
   * Sequence numbers run through 1 to 255 in a circle, refused packets counted: two packets have the
   * same number if and only if a multiple of 255 hand-overs lies between them, and a queued packet
   * carries the number it was given.
   */
  lemma NumbersRunInACircle(lim: Limits, run: seq<World>, i: nat, k: nat, l: nat)
    requires IsRun(lim, run) && i < |run| && k <= l < |run[i].jobs|
    ensures run[i].jobs[k].seqno > 0 && run[i].jobs[l].seqno == SeqnoAfter(run[i].jobs[k].seqno, l - k)
    ensures run[i].jobs[k].seqno == run[i].jobs[l].seqno <==> (l - k) % 255 == 0
    ensures forall q, p :: 0 <= q < |run[i].s.queues| && 0 <= p < |run[i].s.queues[q].packets| ==>
              && run[i].s.queues[q].packets[p].id < |run[i].jobs|
              && run[i].s.queues[q].packets[p].seqno == run[i].jobs[run[i].s.queues[q].packets[p].id].seqno
  {
    RunNumbers(lim, run, i);
    SeqnoSame(run[i].jobs[0].seqno, k, l);
    RunKeeps(lim, run, i);
    forall q, p | 0 <= q < |run[i].s.queues| && 0 <= p < |run[i].s.queues[q].packets|
      ensures run[i].s.queues[q].packets[p].id < |run[i].jobs|
      ensures run[i].s.queues[q].packets[p].seqno == run[i].jobs[run[i].s.queues[q].packets[p].id].seqno
    {
      assert Owned(run[i].jobs, run[i].s.queues[q]);
    }
  }

  /** The first number is the seed, or 1 for a seed of 0. */
  lemma FirstNumber(lim: Limits, w: World, e: Event)
    requires SeqInv(w) && e.HandedOver? && w.jobs == []
    ensures After(lim, w, e).jobs[0].seqno == if e.seed == 0 then 1 else e.seed
  {
    HandOverNumber(lim, w, e);
  }

  // ---- what the air shows ----

  /** The frame went out; for unicast the matching acknowledgement was read. */
  predicate Acknowledged(r: Radio)
  {
    r.frameBuilt && !r.receiving && r.transmit == Ok && (r.broadcast || (!r.pending && r.activityAfter && r.pendingAfter && r.ackMatches))
  }

  /** The frame went out and nothing was read in answer. */
  predicate Unanswered(r: Radio)
  {
    r.frameBuilt && !r.receiving && !r.broadcast && !r.pending && r.transmit == Ok && !(r.activityAfter && r.pendingAfter)
  }

  /** The air was busy, before or during the transmission. */
  predicate Busy(r: Radio)
  {
    r.frameBuilt && (r.receiving || (!r.broadcast && r.pending) || r.transmit == Collision)
  }

  /** Something was read in answer that is not the acknowledgement. */
  predicate WrongAnswer(r: Radio)
  {
    r.frameBuilt && !r.receiving && !r.broadcast && !r.pending && r.transmit == Ok && r.activityAfter && r.pendingAfter && !r.ackMatches
  }

  predicate Disturbed(r: Radio) { Busy(r) || WrongAnswer(r) }

  /** Any other radio error. */
  predicate OtherError(r: Radio)
  {
    r.frameBuilt && !Busy(r) && r.transmit != Ok
  }

  /** The attempt leaves the packet in the queue unless its transmissions are used up. */
  predicate TryAgain(r: Radio) { Unanswered(r) || Disturbed(r) }

  /** Each behaviour of the radio is one of these, and has its own result. */
  lemma ResultsOfTheAir(r: Radio)
    ensures SendResult(r) == Ok <==> Acknowledged(r)
    ensures SendResult(r) == NoAck <==> Unanswered(r)
    ensures SendResult(r) == Collision <==> Disturbed(r)
    ensures SendResult(r) == Err <==> OtherError(r)
    ensures SendResult(r) == ErrFatal <==> !r.frameBuilt
    ensures SendResult(r) != Deferred
  {
  }

  predicate AllUnanswered(t: seq<Radio>) { forall i :: 0 <= i < |t| ==> Unanswered(t[i]) }

  predicate AllDisturbed(t: seq<Radio>) { forall i :: 0 <= i < |t| ==> Disturbed(t[i]) }

  predicate AllTryAgain(t: seq<Radio>) { forall i :: 0 <= i < |t| ==> TryAgain(t[i]) }

  // ---- attempts and counters ----

  /** The counters of a head after the attempts `t`. */
  ghost predicate Counters(q: Queue, t: seq<Radio>)
  {
    && AllTryAgain(t)
    && (AllUnanswered(t) ==> q.transmissions == |t| && q.collisions == 0)
    && (AllDisturbed(t) ==> Rank(q) == |t|)
  }

  /** Only the head has been tried, and its counters show how. */
  ghost predicate TriedOk(jobs: seq<Job>, q: Queue)
  {
    && q.packets != [] && q.packets[0].id < |jobs| && Counters(q, jobs[q.packets[0].id].tried)
    && forall p :: 0 < p < |q.packets| ==> q.packets[p].id < |jobs| && jobs[q.packets[p].id].tried == []
  }

  /** The last attempt decided the status, and the ones before it the count. */
  ghost predicate Reported(t: seq<Radio>, maxTx: Byte, status: Status, ntx: Byte)
  {
    && t != [] && AllTryAgain(t[..|t| - 1])
    && status == SendResult(t[|t| - 1])
    && (AllUnanswered(t) ==> |t| == maxTx && ntx == maxTx)
    && (AllDisturbed(t) ==> |t| == 6 * maxTx && ntx == maxTx)
    && (AllUnanswered(t[..|t| - 1]) && !Disturbed(t[|t| - 1]) ==> ntx == if WentOut(t[|t| - 1]) then |t| else |t| - 1)
    && (AllDisturbed(t[..|t| - 1]) && !TryAgain(t[|t| - 1]) ==> ntx == (|t| - 1) / 6 + if WentOut(t[|t| - 1]) then 1 else 0)
  }

  predicate WentOut(r: Radio) { Acknowledged(r) || Unanswered(r) }

  ghost predicate ReportOk(jobs: seq<Job>, c: Callback)
  {
    c.id < |jobs| && if jobs[c.id].accepted then Reported(jobs[c.id].tried, jobs[c.id].maxTx, c.status, c.ntx) else c.status == Err && c.ntx == 1
  }

  ghost predicate TriedInv(w: World)
  {
    && (forall i :: 0 <= i < |w.s.queues| ==> TriedOk(w.jobs, w.s.queues[i]))
    && (forall k :: 0 <= k < |w.s.log| ==> ReportOk(w.jobs, w.s.log[k]))
  }

  lemma RankIs(q: Queue)
    requires q.collisions <= CSMA_MAX_BACKOFF
    ensures Rank(q) / 6 == q.transmissions && Rank(q) % 6 == q.collisions
  {
  }

  /** One more attempt that leaves the packet in the queue. */
  lemma CountersNext(q: Queue, t: seq<Radio>, r: Radio)
    requires q.packets != [] && Counters(q, t) && q.collisions <= CSMA_MAX_BACKOFF && q.transmissions < q.packets[0].maxTx
    requires TryAgain(r)
    ensures Counters(Counted(q, SendResult(r)), t + [r])
  {
    ResultsOfTheAir(r);
    AttemptCounts(q, SendResult(r));
    assert (t + [r])[|t|] == r;
    assert AllUnanswered(t + [r]) ==> AllUnanswered(t) && Unanswered(r) by {
      if AllUnanswered(t + [r]) {
        forall i | 0 <= i < |t| ensures Unanswered(t[i]) { assert (t + [r])[i] == t[i]; }
      }
    }
    assert AllDisturbed(t + [r]) ==> AllDisturbed(t) && Disturbed(r) by {
      if AllDisturbed(t + [r]) {
        forall i | 0 <= i < |t| ensures Disturbed(t[i]) { assert (t + [r])[i] == t[i]; }
      }
    }
  }

  lemma PrefixOf(t: seq<Radio>, r: Radio)
    ensures (t + [r])[..|t + [r]| - 1] == t && (t + [r])[|t + [r]| - 1] == r
    ensures AllUnanswered(t + [r]) <==> AllUnanswered(t) && Unanswered(r)
    ensures AllDisturbed(t + [r]) <==> AllDisturbed(t) && Disturbed(r)
  {
    var all := t + [r];
    assert forall i :: 0 <= i < |t| ==> all[i] == t[i];
    assert all[|t|] == r;
    if AllUnanswered(all) {
      assert forall i :: 0 <= i < |t| ==> Unanswered(all[i]);
    }
    if AllDisturbed(all) {
      assert forall i :: 0 <= i < |t| ==> Disturbed(all[i]);
    }
  }

  /** The last attempt. */
  lemma LastReported(q: Queue, t: seq<Radio>, r: Radio)
    requires q.packets != [] && Counters(q, t) && q.collisions <= CSMA_MAX_BACKOFF && q.transmissions < q.packets[0].maxTx
    requires Finishes(Counted(q, SendResult(r)), SendResult(r))
    ensures Reported(t + [r], q.packets[0].maxTx, SendResult(r), Counted(q, SendResult(r)).transmissions)
  {
    ResultsOfTheAir(r);
    PrefixOf(t, r);
    AttemptCounts(q, SendResult(r));
    RankIs(q);
    RankIs(Counted(q, SendResult(r)));
  }

  // ---- every event keeps it ----

  lemma {:induction false} CountedIn(packets: seq<Packet>, k: nat, p: nat)
    requires p < |packets| && packets[p].id == k
    ensures CountIn(packets, Some(k)) > 0
  {
    if p > 0 {
      CountedIn(packets[1..], k, p - 1);
    }
  }

  lemma {:induction false} QueuedHas(queues: seq<Queue>, i: nat, p: nat, k: nat)
    requires i < |queues| && p < |queues[i].packets| && queues[i].packets[p].id == k
    ensures Queued(queues, Some(k)) > 0
  {
    CountedIn(queues[i].packets, k, p);
    QueuedUpdate(queues, i, queues[i].(packets := []), Some(k));
  }

  lemma {:induction false} NotLogged(log: seq<Callback>, k: nat)
    requires Logged(log, k) == 0
    ensures forall j :: 0 <= j < |log| ==> log[j].id != k
  {
    if log != [] {
      NotLogged(log[..|log| - 1], k);
    }
  }

  /** A queued packet has had no callback. */
  lemma QueuedIsNotLogged(w: World, i: nat, p: nat)
    requires Census(w) && i < |w.s.queues| && p < |w.s.queues[i].packets|
    ensures forall j :: 0 <= j < |w.s.log| ==> w.s.log[j].id != w.s.queues[i].packets[p].id
  {
    var k := w.s.queues[i].packets[p].id;
    QueuedHas(w.s.queues, i, p, k);
    assert Logged(w.s.log, k) + Queued(w.s.queues, Some(k)) == if k < |w.jobs| then 1 else 0;
    NotLogged(w.s.log, k);
  }

  /** Only job `k` changes. */
  ghost predicate OnlyJob(jobs: seq<Job>, jobs': seq<Job>, k: nat, r: Radio)
  {
    k < |jobs| && jobs' == jobs[k := jobs[k].(tried := jobs[k].tried + [r])]
  }

  lemma ReportsSurvive(w: World, jobs': seq<Job>, i: nat, r: Radio)
    requires TriedInv(w) && Census(w) && i < |w.s.queues| && w.s.queues[i].packets != []
    requires OnlyJob(w.jobs, jobs', w.s.queues[i].packets[0].id, r)
    ensures forall k :: 0 <= k < |w.s.log| ==> ReportOk(jobs', w.s.log[k])
  {
    QueuedIsNotLogged(w, i, 0);
    forall k | 0 <= k < |w.s.log|
      ensures ReportOk(jobs', w.s.log[k])
    {
      assert ReportOk(w.jobs, w.s.log[k]);
    }
  }

  /** The other queues hold other packets. */
  lemma OthersTried(lim: Limits, w: World, jobs': seq<Job>, i: nat, j: nat, r: Radio)
    requires Inv(lim, w) && TriedInv(w) && i < |w.s.queues| && j < |w.s.queues| && i != j && w.s.queues[i].packets != []
    requires OnlyJob(w.jobs, jobs', w.s.queues[i].packets[0].id, r)
    ensures TriedOk(jobs', w.s.queues[j])
  {
    assert Owned(w.jobs, w.s.queues[i]) && Owned(w.jobs, w.s.queues[j]) && TriedOk(w.jobs, w.s.queues[j]);
    assert w.s.queues[i].addr != w.s.queues[j].addr;
  }

  lemma RetryTried(lim: Limits, w: World, e: Event)
    requires Inv(lim, w) && TriedInv(w) && e.TimerFired? && CanHappen(w, e)
    requires RetryStep(lim, w, After(lim, w, e), e.queue, SendResult(e.radio), e.rnd)
    ensures TriedInv(After(lim, w, e))
  {
    var i, w', q := e.queue, After(lim, w, e), w.s.queues[e.queue];
    ResultsOfTheAir(e.radio);
    assert QueueOk(lim, q) && Owned(w.jobs, q) && TriedOk(w.jobs, q);
    CountersNext(q, w.jobs[q.packets[0].id].tried, e.radio);
    ReportsSurvive(w, w'.jobs, i, e.radio);
    forall j | 0 <= j < |w'.s.queues|
      ensures TriedOk(w'.jobs, w'.s.queues[j])
    {
      if j != i {
        OthersTried(lim, w, w'.jobs, i, j, e.radio);
      }
    }
  }

  lemma FinishTried(lim: Limits, w: World, e: Event)
    requires Inv(lim, w) && TriedInv(w) && e.TimerFired? && CanHappen(w, e)
    requires FinishStep(lim, w, After(lim, w, e), e.queue, SendResult(e.radio), e.rnd)
    ensures TriedInv(After(lim, w, e))
  {
    var i, w', q := e.queue, After(lim, w, e), w.s.queues[e.queue];
    assert QueueOk(lim, q) && Owned(w.jobs, q) && TriedOk(w.jobs, q);
    LastReported(q, w.jobs[q.packets[0].id].tried, e.radio);
    ReportsSurvive(w, w'.jobs, i, e.radio);
    forall k | 0 <= k < |w'.s.log|
      ensures ReportOk(w'.jobs, w'.s.log[k])
    {
      assert k < |w.s.log| ==> ReportOk(w'.jobs, w.s.log[k]);
    }
    forall j | 0 <= j < |w'.s.queues|
      ensures TriedOk(w'.jobs, w'.s.queues[j])
    {
      ShorterTried(lim, w, w'.jobs, i, j, e.radio, e.rnd);
    }
  }

  lemma ShorterTried(lim: Limits, w: World, jobs': seq<Job>, i: nat, j: nat, r: Radio, rnd: nat)
    requires Inv(lim, w) && TriedInv(w) && i < |w.s.queues| && w.s.queues[i].packets != []
    requires OnlyJob(w.jobs, jobs', w.s.queues[i].packets[0].id, r) && j < |Shorter(lim, w.s.queues, i, rnd)|
    ensures TriedOk(jobs', Shorter(lim, w.s.queues, i, rnd)[j])
  {
    var q := w.s.queues[i];
    assert Owned(w.jobs, q) && TriedOk(w.jobs, q);
    var o := if |q.packets| > 1 || j < i then j else j + 1;
    if o != i {
      OthersTried(lim, w, jobs', i, o, r);
    } else {
      assert jobs'[q.packets[1].id].tried == [];
    }
  }

  lemma JoinTried(lim: Limits, jobs: seq<Job>, job: Job, q: Queue, p: Packet, rnd: nat)
    requires p.id == |jobs| && job.tried == []
    requires TriedOk(jobs, q) || (q.packets == [] && q.transmissions == q.collisions == 0)
    ensures TriedOk(jobs + [job], Joined(lim, q, p, rnd))
  {
    if q.packets != [] {
      assert Joined(lim, q, p, rnd).packets[0] == q.packets[0];
      assert (jobs + [job])[q.packets[0].id] == jobs[q.packets[0].id];
    }
  }

  lemma MoreJobs(jobs: seq<Job>, job: Job, q: Queue)
    requires TriedOk(jobs, q)
    ensures TriedOk(jobs + [job], q)
  {
  }

  lemma JoinedTried(lim: Limits, w: World, e: Event, j: nat)
    requires Inv(lim, w) && TriedInv(w) && e.HandedOver? && Accepts(lim, w.s, RequestOf(w, e)) && j < |After(lim, w, e).s.queues|
    ensures TriedOk(After(lim, w, e).jobs, After(lim, w, e).s.queues[j])
  {
    var w', p := After(lim, w, e), Packet(|w.jobs|, NextSeqno(w.s, e.seed), MaxTx(e.attr));
    AcceptEffect(lim, w.s, RequestOf(w, e), e.seed, e.rnd);
    assert j < |w.s.queues| ==> TriedOk(w.jobs, w.s.queues[j]);
    if j == Find(w.s.queues, e.dest) {
      JoinTried(lim, w.jobs, w'.jobs[|w.jobs|], Entries(w.s.queues, e.dest)[j], p, e.rnd);
    } else {
      MoreJobs(w.jobs, w'.jobs[|w.jobs|], w.s.queues[j]);
    }
  }

  lemma AcceptedTried(lim: Limits, w: World, e: Event)
    requires Inv(lim, w) && TriedInv(w) && e.HandedOver? && Accepts(lim, w.s, RequestOf(w, e))
    ensures TriedInv(After(lim, w, e))
  {
    var w' := After(lim, w, e);
    forall j | 0 <= j < |w'.s.queues|
      ensures TriedOk(w'.jobs, w'.s.queues[j])
    {
      JoinedTried(lim, w, e, j);
    }
    AcceptEffect(lim, w.s, RequestOf(w, e), e.seed, e.rnd);
    forall k | 0 <= k < |w'.s.log|
      ensures ReportOk(w'.jobs, w'.s.log[k])
    {
      assert ReportOk(w.jobs, w.s.log[k]);
    }
  }

  lemma RefusedTried(lim: Limits, w: World, e: Event)
    requires Inv(lim, w) && TriedInv(w) && e.HandedOver? && lim.perNeighbour > 0 && !Accepts(lim, w.s, RequestOf(w, e))
    ensures TriedInv(After(lim, w, e))
  {
    var w', r := After(lim, w, e), RequestOf(w, e);
    if Find(w.s.queues, e.dest) < |w.s.queues| {
      DestNonEmpty(lim, w.s, e.dest);
    }
    RefuseEffect(lim, w.s, r, e.seed, e.rnd);
    forall j | 0 <= j < |w'.s.queues|
      ensures TriedOk(w'.jobs, w'.s.queues[j])
    {
      assert TriedOk(w.jobs, w.s.queues[j]);
    }
    forall k | 0 <= k < |w'.s.log|
      ensures ReportOk(w'.jobs, w'.s.log[k])
    {
      assert k < |w.s.log| ==> ReportOk(w.jobs, w.s.log[k]);
    }
  }

  lemma FireTried(lim: Limits, w: World, e: Event)
    requires Inv(lim, w) && TriedInv(w) && e.TimerFired? && CanHappen(w, e)
    ensures TriedInv(After(lim, w, e))
  {
    var i, result := e.queue, SendResult(e.radio);
    FireIsStep(lim, w, e);
    if Finishes(Counted(w.s.queues[i], result), result) {
      FinishTried(lim, w, e);
    } else {
      RetryTried(lim, w, e);
    }
  }

  lemma EventTried(lim: Limits, w: World, e: Event)
    requires Inv(lim, w) && TriedInv(w) && CanHappen(w, e) && lim.perNeighbour > 0
    ensures TriedInv(After(lim, w, e))
  {
    if e.TimerFired? {
      FireTried(lim, w, e);
    } else if Accepts(lim, w.s, RequestOf(w, e)) {
      AcceptedTried(lim, w, e);
    } else {
      RefusedTried(lim, w, e);
    }
  }

  lemma TriedNext(lim: Limits, run: seq<World>, i: nat)
    requires IsRun(lim, run) && i + 1 < |run| && Inv(lim, run[i]) && TriedInv(run[i])
    ensures TriedInv(run[i + 1])
  {
    assert Follows(lim, run, i);
    var e :| CanHappen(run[i], e) && run[i + 1] == After(lim, run[i], e);
    EventTried(lim, run[i], e);
  }

  lemma {:induction false} RunTried(lim: Limits, run: seq<World>, i: nat)
    requires IsRun(lim, run) && i < |run|
    ensures TriedInv(run[i])
  {
    if i > 0 {
      RunTried(lim, run, i - 1);
      RunKeeps(lim, run, i - 1);
      TriedNext(lim, run, i - 1);
    }
  }

  // ---- what becomes of a packet ----

  /** The transmissions an attribute asks for: 8 without one; it is stored in 8 bits. */
  function Granted(attr: nat): nat
  {
    if attr % 256 == 0 then 8 else attr % 256
  }

  ghost predicate GrantInv(jobs: seq<Job>)
  {
    forall k :: 0 <= k < |jobs| ==> jobs[k].maxTx == Granted(jobs[k].attr)
  }

  lemma {:induction false} RunGrants(lim: Limits, run: seq<World>, i: nat)
    requires IsRun(lim, run) && i < |run|
    ensures GrantInv(run[i].jobs)
  {
    if i > 0 {
      RunGrants(lim, run, i - 1);
      assert Follows(lim, run, i - 1);
      var e :| CanHappen(run[i - 1], e) && run[i] == After(lim, run[i - 1], e);
    }
  }

  lemma {:induction false} PacketIn(packets: seq<Packet>, k: nat) returns (p: nat)
    requires CountIn(packets, Some(k)) > 0
    ensures p < |packets| && packets[p].id == k
  {
    if packets[0].id == k {
      p := 0;
    } else {
      p := PacketIn(packets[1..], k);
      p := p + 1;
    }
  }

  lemma {:induction false} QueuedAt(queues: seq<Queue>, k: nat) returns (i: nat, p: nat)
    requires Queued(queues, Some(k)) > 0
    ensures i < |queues| && p < |queues[i].packets| && queues[i].packets[p].id == k
  {
    var l := |queues| - 1;
    if CountIn(queues[l].packets, Some(k)) > 0 {
      i := l;
      p := PacketIn(queues[l].packets, k);
    } else {
      i, p := QueuedAt(queues[..l], k);
    }
  }

  lemma {:induction false} LoggedAt(log: seq<Callback>, k: nat) returns (j: nat)
    requires Logged(log, k) > 0
    ensures j < |log| && log[j].id == k
  {
    var l := |log| - 1;
    if log[l].id == k {
      j := l;
    } else {
      j := LoggedAt(log[..l], k);
    }
  }

  /** A packet that still waits. */
  lemma Waits(lim: Limits, w: World, k: nat)
    requires Inv(lim, w) && TriedInv(w) && k < |w.jobs| && w.jobs[k].accepted && Logged(w.s.log, k) == 0
    ensures var t, m := w.jobs[k].tried, w.jobs[k].maxTx;
            && AllTryAgain(t) && (AllUnanswered(t) ==> |t| < m) && (AllDisturbed(t) ==> |t| < 6 * m)
  {
    assert Logged(w.s.log, k) + Queued(w.s.queues, Some(k)) == if k < |w.jobs| then 1 else 0;
    var i, p := QueuedAt(w.s.queues, k);
    var q := w.s.queues[i];
    assert QueueOk(lim, q) && Owned(w.jobs, q) && TriedOk(w.jobs, q);
  }

  /** A packet that has had its callback. */
  lemma Ended(w: World, k: nat)
    requires TriedInv(w) && k < |w.jobs| && w.jobs[k].accepted && Logged(w.s.log, k) > 0
    ensures forall j :: 0 <= j < |w.s.log| && w.s.log[j].id == k ==> Reported(w.jobs[k].tried, w.jobs[k].maxTx, w.s.log[j].status, w.s.log[j].ntx)
    ensures exists j :: 0 <= j < |w.s.log| && w.s.log[j].id == k
  {
    var j := LoggedAt(w.s.log, k);
    assert w.s.log[j].id == k;
    forall l | 0 <= l < |w.s.log| && w.s.log[l].id == k
      ensures Reported(w.jobs[k].tried, w.jobs[k].maxTx, w.s.log[l].status, w.s.log[l].ntx)
    {
      assert ReportOk(w.jobs, w.s.log[l]);
    }
  }

  /** Every callback for `k` is this one. */
  ghost predicate OnlyCallback(log: seq<Callback>, k: nat, status: Status, ntx: nat)
  {
    forall j :: 0 <= j < |log| && log[j].id == k ==> log[j].status == status && log[j].ntx == ntx
  }

  /**
   * A packet whose frames all go out unanswered is given up at exactly the attempt its attribute grants,
   * 8 without one, and NOACK is reported.
   */
  lemma UnansweredEnds(lim: Limits, run: seq<World>, i: nat, k: nat)
    requires IsRun(lim, run) && i < |run| && k < |run[i].jobs| && run[i].jobs[k].accepted && AllUnanswered(run[i].jobs[k].tried)
    ensures var t, m, log := run[i].jobs[k].tried, Granted(run[i].jobs[k].attr), run[i].s.log;
            && |t| <= m && (Logged(log, k) == 1 <==> |t| == m) && OnlyCallback(log, k, NoAck, m)
  {
    RunKeeps(lim, run, i);
    RunTried(lim, run, i);
    RunGrants(lim, run, i);
    CsmaTheorems.OneCallbackEach(lim, run, i, k);
    var w, t := run[i], run[i].jobs[k].tried;
    if Logged(w.s.log, k) == 0 {
      Waits(lim, w, k);
      NotLogged(w.s.log, k);
    } else {
      Ended(w, k);
      assert t != [] ==> Unanswered(t[|t| - 1]);
      ResultsOfTheAir(if t == [] then Radio(false, false, false, false, Ok, false, false, false) else t[|t| - 1]);
    }
  }

  /** One that meets nothing but a busy channel or wrong answers is given up at exactly six times that attempt with COLLISION. */
  lemma DisturbedEnds(lim: Limits, run: seq<World>, i: nat, k: nat)
    requires IsRun(lim, run) && i < |run| && k < |run[i].jobs| && run[i].jobs[k].accepted && AllDisturbed(run[i].jobs[k].tried)
    ensures var t, m, log := run[i].jobs[k].tried, Granted(run[i].jobs[k].attr), run[i].s.log;
            && |t| <= 6 * m && (Logged(log, k) == 1 <==> |t| == 6 * m) && OnlyCallback(log, k, Collision, m)
  {
    RunKeeps(lim, run, i);
    RunTried(lim, run, i);
    RunGrants(lim, run, i);
    CsmaTheorems.OneCallbackEach(lim, run, i, k);
    var w, t := run[i], run[i].jobs[k].tried;
    if Logged(w.s.log, k) == 0 {
      Waits(lim, w, k);
      NotLogged(w.s.log, k);
    } else {
      Ended(w, k);
      assert t != [] ==> Disturbed(t[|t| - 1]);
      ResultsOfTheAir(if t == [] then Radio(false, false, false, false, Ok, false, false, false) else t[|t| - 1]);
    }
  }

  /** The status that ends a packet at once. */
  function AtOnce(r: Radio): Status
  {
    if !r.frameBuilt then ErrFatal else if Acknowledged(r) then Ok else Err
  }

  /**
   * An acknowledgement, a frame that cannot be built and a radio error end a packet at once, with OK, a fatal
   * error and an error; before that no attempt ended it. Only attempts that went out count: after
   * unanswered ones all of them, and after disturbed ones every sixth.
   */
  lemma DecisiveEnds(lim: Limits, run: seq<World>, i: nat, k: nat)
    requires IsRun(lim, run) && i < |run| && k < |run[i].jobs| && run[i].jobs[k].accepted
    requires run[i].jobs[k].tried != [] && !TryAgain(run[i].jobs[k].tried[|run[i].jobs[k].tried| - 1])
    ensures var t, log := run[i].jobs[k].tried, run[i].s.log;
            var last, before := t[|t| - 1], t[..|t| - 1];
            && Logged(log, k) == 1 && AllTryAgain(before)
            && (forall j :: 0 <= j < |log| && log[j].id == k ==> log[j].status == AtOnce(last))
            && (AllUnanswered(before) ==> OnlyCallback(log, k, AtOnce(last), if Acknowledged(last) then |t| else |t| - 1))
            && (AllDisturbed(before) ==> OnlyCallback(log, k, AtOnce(last), (|t| - 1) / 6 + if Acknowledged(last) then 1 else 0))
  {
    RunKeeps(lim, run, i);
    RunTried(lim, run, i);
    CsmaTheorems.OneCallbackEach(lim, run, i, k);
    var w, t := run[i], run[i].jobs[k].tried;
    if Logged(w.s.log, k) == 0 {
      Waits(lim, w, k);
    } else {
      Ended(w, k);
      forall j | 0 <= j < |w.s.log| && w.s.log[j].id == k
        ensures DecisiveReport(t, w.s.log[j].status, w.s.log[j].ntx)
      {
        Decided(t, w.jobs[k].maxTx, w.s.log[j].status, w.s.log[j].ntx);
      }
    }
  }

  ghost predicate DecisiveReport(t: seq<Radio>, status: Status, ntx: Byte)
  {
    t != [] &&
    var last, before := t[|t| - 1], t[..|t| - 1];
    && AllTryAgain(before) && status == AtOnce(last)
    && (AllUnanswered(before) ==> ntx == if Acknowledged(last) then |t| else |t| - 1)
    && (AllDisturbed(before) ==> ntx == (|t| - 1) / 6 + if Acknowledged(last) then 1 else 0)
  }

  lemma Decided(t: seq<Radio>, maxTx: Byte, status: Status, ntx: Byte)
    requires Reported(t, maxTx, status, ntx) && !TryAgain(t[|t| - 1])
    ensures DecisiveReport(t, status, ntx)
  {
    ResultsOfTheAir(t[|t| - 1]);
  }

  // ---- refusals ----

  /**
   * A packet is accepted if and only if its queue has room, or there is none and an entry is free,
   * fewer packets are queued than there are blocks, and a buffer is given; otherwise it is refused.
   */
  lemma AcceptedWhen(lim: Limits, run: seq<World>, i: nat, e: Event)
    requires IsRun(lim, run) && i < |run| && e.HandedOver?
    ensures var w, w' := run[i], After(lim, run[i], e);
            && |w'.jobs| == |w.jobs| + 1
            && (w'.jobs[|w.jobs|].accepted <==>
                 && |Fifo(w.s.queues, e.dest)| < lim.perNeighbour
                 && (Fifo(w.s.queues, e.dest) != [] || |w.s.queues| < lim.neighbours)
                 && Queued(w.s.queues, None) < lim.packets && e.bufGiven)
            && Fifo(w'.s.queues, e.dest) == Fifo(w.s.queues, e.dest) + if w'.jobs[|w.jobs|].accepted then [|w.jobs|] else []
  {
    RunKeeps(lim, run, i);
    var w := run[i];
    CsmaTheorems.StepRefines(lim, w, e, e.dest);
    if Find(w.s.queues, e.dest) < |w.s.queues| {
      DestNonEmpty(lim, w.s, e.dest);
    }
  }

  // ---- backoff ----

  /** Backoff periods to draw from: 2^BE - 1, with BE from 3 to 5. */
  function Periods(collisions: nat): nat
  {
    if collisions == 0 then 7 else if collisions == 1 then 15 else 31
  }

  /** The draw is the delay, up to whole multiples of the span: every delay below the span is reached. */
  lemma DrawIsDelay(collisions: nat, period: nat, d: nat, k: nat)
    requires d < Periods(collisions) * period
    ensures Delay(collisions, period, d + k * (Periods(collisions) * period)) == d
  {
    CsmaTheorems.SpanValues(collisions, period);
    Remainder(d, k, Periods(collisions) * period);
  }

  lemma Remainder(d: nat, k: nat, span: nat)
    requires d < span
    ensures (d + k * span) % span == d
  {
    var x, k' := d + k * span, (d + k * span) / span;
    assert x == k' * span + x % span;
    if k' > k {
      Multiples(k, k', span);
    } else if k > k' {
      Multiples(k', k, span);
    }
  }

  lemma {:induction false} Multiples(k: nat, l: nat, span: nat)
    requires k < l
    ensures l * span >= k * span + span
    decreases l
  {
    if k + 1 < l {
      Multiples(k, l - 1, span);
    }
    assert l * span == (l - 1) * span + span;
  }

  /**
   * After an attempt that leaves the packet queued, the draw arms its timer and is published, whatever of the
   * span for its collisions was drawn. An unanswered frame and the sixth disturbance in a row start that afresh.
   */
  lemma RetryIsDelayed(lim: Limits, run: seq<World>, i: nat, e: Event)
    requires IsRun(lim, run) && i < |run| && e.TimerFired? && CanHappen(run[i], e) && TryAgain(e.radio)
    requires After(lim, run[i], e).s.log == run[i].s.log
    ensures var qs, w' := run[i].s.queues, After(lim, run[i], e);
            && |w'.s.queues| == |qs|
            && w'.s.queues[e.queue].collisions == (if Unanswered(e.radio) || qs[e.queue].collisions == 5 then 0 else qs[e.queue].collisions + 1)
            && (e.rnd < Periods(w'.s.queues[e.queue].collisions) * lim.period ==>
                 w'.s.queues[e.queue].timer == Some(e.rnd) && w'.s.delay == e.rnd)
  {
    RunKeeps(lim, run, i);
    var w, q, result := run[i], run[i].s.queues[e.queue], SendResult(e.radio);
    assert QueueOk(lim, q);
    ResultsOfTheAir(e.radio);
    NoCallbackIsRetry(lim, w, e);
    FireRetries(lim, w.s, e.queue, result, e.rnd);
    if e.rnd < Periods(Counted(q, result).collisions) * lim.period {
      DrawIsDelay(Counted(q, result).collisions, lim.period, e.rnd, 0);
    }
  }

  lemma NoCallbackIsRetry(lim: Limits, w: World, e: Event)
    requires e.TimerFired? && CanHappen(w, e) && After(lim, w, e).s.log == w.s.log
    ensures !Finishes(Counted(w.s.queues[e.queue], SendResult(e.radio)), SendResult(e.radio))
  {
    FireIsStep(lim, w, e);
  }

  /** The same for a packet that becomes the head of its queue, when it is handed over or when the one before it is gone: 7 periods. */
  lemma HeadIsDelayed(lim: Limits, run: seq<World>, i: nat, e: Event)
    requires IsRun(lim, run) && i < |run| && CanHappen(run[i], e) && e.rnd < 7 * lim.period
    ensures e.HandedOver? && Accepts(lim, run[i].s, RequestOf(run[i], e)) ==>
              var qs, s' := run[i].s.queues, After(lim, run[i], e).s;
              if Find(qs, e.dest) == |qs| then
                |s'.queues| == |qs| + 1 && s'.queues[|qs|].addr == e.dest && s'.queues[|qs|].timer == Some(e.rnd) && s'.delay == e.rnd
              else
                |s'.queues| == |qs| && s'.queues[Find(qs, e.dest)].timer == qs[Find(qs, e.dest)].timer && s'.delay == run[i].s.delay
    ensures e.TimerFired? && After(lim, run[i], e).s.log != run[i].s.log && |run[i].s.queues[e.queue].packets| > 1 ==>
              var s' := After(lim, run[i], e).s;
              && |s'.queues| == |run[i].s.queues| && s'.queues[e.queue].packets == run[i].s.queues[e.queue].packets[1..]
              && s'.queues[e.queue].timer == Some(e.rnd) && s'.delay == e.rnd
  {
    RunKeeps(lim, run, i);
    DrawIsDelay(0, lim.period, e.rnd, 0);
    if e.HandedOver? && Accepts(lim, run[i].s, RequestOf(run[i], e)) {
      JoinIsDelayed(lim, run[i], e);
    } else if e.TimerFired? {
      PopIsDelayed(lim, run[i], e);
    }
  }

  lemma JoinIsDelayed(lim: Limits, w: World, e: Event)
    requires Inv(lim, w) && e.HandedOver? && Accepts(lim, w.s, RequestOf(w, e)) && Delay(0, lim.period, e.rnd) == e.rnd
    ensures var qs, s' := w.s.queues, After(lim, w, e).s;
            if Find(qs, e.dest) == |qs| then
              |s'.queues| == |qs| + 1 && s'.queues[|qs|].addr == e.dest && s'.queues[|qs|].timer == Some(e.rnd) && s'.delay == e.rnd
            else
              |s'.queues| == |qs| && s'.queues[Find(qs, e.dest)].timer == qs[Find(qs, e.dest)].timer && s'.delay == w.s.delay
  {
    AcceptEffect(lim, w.s, RequestOf(w, e), e.seed, e.rnd);
    if Find(w.s.queues, e.dest) < |w.s.queues| {
      DestNonEmpty(lim, w.s, e.dest);
    }
  }

  lemma PopIsDelayed(lim: Limits, w: World, e: Event)
    requires Inv(lim, w) && e.TimerFired? && CanHappen(w, e) && Delay(0, lim.period, e.rnd) == e.rnd
    ensures After(lim, w, e).s.log != w.s.log && |w.s.queues[e.queue].packets| > 1 ==>
              var s' := After(lim, w, e).s;
              && |s'.queues| == |w.s.queues| && s'.queues[e.queue].packets == w.s.queues[e.queue].packets[1..]
              && s'.queues[e.queue].timer == Some(e.rnd) && s'.delay == e.rnd
  {
    FireIsStep(lim, w, e);
    if After(lim, w, e).s.log != w.s.log && |w.s.queues[e.queue].packets| > 1 {
      FireFinishes(lim, w.s, e.queue, SendResult(e.radio), e.rnd);
    }
  }
}
