/**
 * The queue of outgoing payloads of a node on top of the CSMA queue: entries leave the
 * node's queue only when CSMA has scheduled them.
 */
module Outbox {
  import opened Types
  import opened NodeModel
  import opened Csma
  import opened CsmaRuns
  import CsmaTheorems

  /** An entry that left the node's queue, and the CSMA job it left with. */
  datatype Gone = Gone(out: Out, to: LinkId, job: nat)

  /**
   * `queued` and `gone` record the whole history, and `handed` every hand-over that CSMA
   * accepted, whether the entry left or stayed.
   */
  datatype Box = Box(entries: seq<Out>, armed: bool, csma: World, queued: seq<Out>, gone: seq<Gone>, handed: seq<Gone>)

  datatype Event =
    | Queue(out: Out)
    | SendTimer(unset: LinkId, attr: nat, bufGiven: bool, seed: Byte, rnd: nat)
    | Other(e: CsmaRuns.Event)

  predicate CanOccur(b: Box, e: Event)
  {
    match e
    case Queue(_) => true
    case SendTimer(_, _, _, _, _) => b.armed && b.entries != []
    case Other(c) => CanHappen(b.csma, c)
  }

  /** transmission_delay is overwritten before the packet is handed over. */
  function Cleared(w: World): World
  {
    World(w.s.(delay := NOT_SCHEDULED), w.jobs)
  }

  function HandOver(b: Box, e: Event): CsmaRuns.Event
    requires e.SendTimer? && b.entries != []
  {
    HandedOver(Destination(b.entries[0], e.unset), e.attr, e.bufGiven, e.seed, e.rnd)
  }

  function Next(lim: Limits, b: Box, e: Event): Box
    requires CanOccur(b, e)
  {
    match e
    case Queue(out) => Box(b.entries + [out], true, b.csma, b.queued + [out], b.gone, b.handed)
    case SendTimer(unset, _, _, _, _) =>
      var w := After(lim, Cleared(b.csma), HandOver(b, e));
      var g := Gone(b.entries[0], Destination(b.entries[0], unset), |b.csma.jobs|);
      var handed := if w.jobs[|b.csma.jobs|].accepted then b.handed + [g] else b.handed;
      if w.s.delay == NOT_SCHEDULED then Box(b.entries, true, w, b.queued, b.gone, handed)
      else Box(b.entries[1..], |b.entries| > 1, w, b.queued, b.gone + [g], handed)
    case Other(c) => b.(csma := After(lim, b.csma, c))
  }

  ghost predicate Occurs(lim: Limits, b: Box, b': Box)
  {
    exists e :: CanOccur(b, e) && b' == Next(lim, b, e)
  }

  ghost predicate IsHistory(lim: Limits, run: seq<Box>)
  {
    && lim.perNeighbour > 0 && lim.period > 0
    && |run| > 0 && run[0] == Box([], false, World(Idle, []), [], [], [])
    && forall i :: 0 <= i < |run| - 1 ==> Follows(lim, run, i)
  }

  ghost predicate Follows(lim: Limits, run: seq<Box>, i: nat)
    requires i < |run| - 1
  {
    Occurs(lim, run[i], run[i + 1])
  }

  // ---- when an entry leaves ----

  /**
   * The head entry leaves the node's queue exactly when CSMA accepts it as the first packet for
   * its destination and the delay drawn for it is not the sentinel by chance.
   */
  lemma LeavesWhen(lim: Limits, b: Box, e: Event)
    requires Inv(lim, b.csma) && e.SendTimer? && CanOccur(b, e) && lim.perNeighbour > 0
    ensures var s, r := b.csma.s, RequestOf(Cleared(b.csma), HandOver(b, e));
            var leaves := Next(lim, b, e).entries != b.entries;
            leaves <==> Accepts(lim, s, r) && Find(s.queues, r.dest) == |s.queues| && Delay(0, lim.period, e.rnd) != NOT_SCHEDULED
  {
    var s, r := Cleared(b.csma).s, RequestOf(Cleared(b.csma), HandOver(b, e));
    var i := Find(s.queues, r.dest);
    assert |b.entries[1..]| != |b.entries|;
    if Accepts(lim, s, r) && i < |s.queues| {
      assert QueueOk(lim, b.csma.s.queues[i]);
    }
  }

  /**
   * A packet that CSMA accepts behind another one for the same destination is not scheduled yet,
   * so the entry goes back to the front of the queue and will be handed over again. Otherwise this
   * happens only if 1000 is drawn as the delay, which for periods of at most 142 ticks it never is.
   */
  lemma DuplicatedWhen(lim: Limits, b: Box, e: Event)
    requires Inv(lim, b.csma) && e.SendTimer? && CanOccur(b, e) && lim.perNeighbour > 0 && lim.period > 0
    ensures var r := RequestOf(Cleared(b.csma), HandOver(b, e));
            var b' := Next(lim, b, e);
            (Accepts(lim, b.csma.s, r) && b'.entries == b.entries)
            <==> (Accepts(lim, b.csma.s, r) && (Find(b.csma.s.queues, r.dest) < |b.csma.s.queues| || Delay(0, lim.period, e.rnd) == NOT_SCHEDULED))
    ensures lim.period <= 142 ==> Delay(0, lim.period, e.rnd) != NOT_SCHEDULED
  {
    LeavesWhen(lim, b, e);
    if lim.period <= 142 {
      CsmaTheorems.SpanValues(0, lim.period);
      DelayBelow(0, lim.period, e.rnd);
    }
  }

  // ---- whole histories ----

  function Outs(gone: seq<Gone>): (r: seq<Out>)
    ensures |r| == |gone|
  {
    seq(|gone|, i requires 0 <= i < |gone| => gone[i].out)
  }

  /** Each entry left with an accepted job for its destination, in the order the entries were queued. */
  ghost predicate GoneOk(jobs: seq<Job>, gone: seq<Gone>)
  {
    && (forall i :: 0 <= i < |gone| ==> IsFor(jobs, gone[i].job, gone[i].to) && (gone[i].out.dest.Some? ==> gone[i].out.dest.value == gone[i].to))
    && forall i, j :: 0 <= i < j < |gone| ==> gone[i].job < gone[j].job
  }

  ghost predicate BoxInv(lim: Limits, b: Box)
  {
    && Inv(lim, b.csma)
    && (b.armed <==> b.entries != [])
    && b.queued == Outs(b.gone) + b.entries
    && GoneOk(b.csma.jobs, b.gone)
  }

  lemma ClearedInv(lim: Limits, w: World)
    requires Inv(lim, w)
    ensures Inv(lim, Cleared(w))
  {
    var w' := Cleared(w);
    assert AllOwned(w') by {
      forall i | 0 <= i < |w'.s.queues|
        ensures Owned(w'.jobs, w'.s.queues[i])
      {
        assert Owned(w.jobs, w.s.queues[i]);
      }
    }
    assert Census(w') by {
      forall k: nat
        ensures Logged(w'.s.log, k) + Queued(w'.s.queues, Some(k)) == if k < |w'.jobs| then 1 else 0
      {
        assert Logged(w.s.log, k) + Queued(w.s.queues, Some(k)) == if k < |w.jobs| then 1 else 0;
      }
    }
    assert InOrder(w') by {
      forall d
        ensures CompletedFor(w'.s.log, w'.jobs, d) + Fifo(w'.s.queues, d) == AcceptedFor(w'.jobs, d)
      {
        assert CompletedFor(w.s.log, w.jobs, d) + Fifo(w.s.queues, d) == AcceptedFor(w.jobs, d);
      }
    }
  }

  lemma GoneSurvives(lim: Limits, w: World, e: CsmaRuns.Event, gone: seq<Gone>)
    requires GoneOk(w.jobs, gone) && CanHappen(w, e)
    ensures GoneOk(After(lim, w, e).jobs, gone)
  {
    var jobs' := After(lim, w, e).jobs;
    assert forall k :: 0 <= k < |w.jobs| ==> jobs'[k].dest == w.jobs[k].dest && jobs'[k].accepted == w.jobs[k].accepted;
    forall i | 0 <= i < |gone|
      ensures IsFor(jobs', gone[i].job, gone[i].to)
    {
      assert IsFor(w.jobs, gone[i].job, gone[i].to);
    }
  }

  lemma EventKeeps(lim: Limits, w: World, e: CsmaRuns.Event)
    requires Inv(lim, w) && CanHappen(w, e) && lim.perNeighbour > 0 && lim.period > 0
    ensures Inv(lim, After(lim, w, e))
  {
    StepKeeps(lim, w, After(lim, w, e));
  }

  lemma SendKeeps(lim: Limits, b: Box, e: Event)
    requires BoxInv(lim, b) && CanOccur(b, e) && e.SendTimer? && lim.perNeighbour > 0 && lim.period > 0
    ensures BoxInv(lim, Next(lim, b, e))
  {
    var c, h, b' := Cleared(b.csma), HandOver(b, e), Next(lim, b, e);
    ClearedInv(lim, b.csma);
    EventKeeps(lim, c, h);
    GoneSurvives(lim, c, h, b.gone);
    LeavesWhen(lim, b, e);
    if b'.csma.s.delay != NOT_SCHEDULED {
      assert |b'.entries| == |b.entries| - 1;
      assert b'.csma.jobs[|c.jobs|].dest == h.dest && b'.csma.jobs[|c.jobs|].accepted;
      GoneAppend(b.csma.jobs, b'.csma.jobs, b.gone, Gone(b.entries[0], h.dest, |b.csma.jobs|), b.entries);
    }
  }

  lemma GoneAppend(jobs: seq<Job>, jobs': seq<Job>, gone: seq<Gone>, g: Gone, entries: seq<Out>)
    requires GoneOk(jobs, gone) && GoneOk(jobs', gone) && IsFor(jobs', g.job, g.to) && g.job == |jobs|
    requires entries != [] && g.out == entries[0] && (g.out.dest.Some? ==> g.out.dest.value == g.to)
    ensures GoneOk(jobs', gone + [g])
    ensures Outs(gone + [g]) + entries[1..] == Outs(gone) + entries
  {
    forall i | 0 <= i < |gone|
      ensures gone[i].job < |jobs|
    {
      assert IsFor(jobs, gone[i].job, gone[i].to);
    }
    assert Outs(gone + [g]) == Outs(gone) + [g.out];
  }

  lemma BoxStep(lim: Limits, b: Box, b': Box)
    requires BoxInv(lim, b) && Occurs(lim, b, b') && lim.perNeighbour > 0 && lim.period > 0
    ensures BoxInv(lim, b')
  {
    var e :| CanOccur(b, e) && b' == Next(lim, b, e);
    match e {
      case Queue(_) =>
        assert Outs(b.gone) + (b.entries + [e.out]) == (Outs(b.gone) + b.entries) + [e.out];
      case SendTimer(_, _, _, _, _) =>
        SendKeeps(lim, b, e);
      case Other(c) =>
        EventKeeps(lim, b.csma, c);
        GoneSurvives(lim, b.csma, c, b.gone);
    }
  }

  lemma {:induction false} HistoryKeeps(lim: Limits, run: seq<Box>, i: nat)
    requires IsHistory(lim, run) && i < |run|
    ensures BoxInv(lim, run[i])
  {
    if i > 0 {
      HistoryKeeps(lim, run, i - 1);
      assert Follows(lim, run, i - 1);
      BoxStep(lim, run[i - 1], run[i]);
    }
  }

  /** In every history the timer runs exactly when something is queued, and entries leave first in, first out, each with an accepted job. */
  lemma EntriesLeaveInOrder(lim: Limits, run: seq<Box>, i: nat)
    requires IsHistory(lim, run) && i < |run|
    ensures run[i].armed <==> run[i].entries != []
    ensures run[i].queued == Outs(run[i].gone) + run[i].entries
    ensures forall k :: 0 <= k < |run[i].gone| ==> IsFor(run[i].csma.jobs, run[i].gone[k].job, run[i].gone[k].to)
  {
    HistoryKeeps(lim, run, i);
  }

  /**
   * End to end: of two entries for the same destination the one queued first has its callback
   * first, through the node's queue and CSMA together.
   */
  lemma SettledInOrder(lim: Limits, run: seq<Box>, i: nat, a: nat, b: nat)
    requires IsHistory(lim, run) && i < |run| && a < b < |run[i].gone| && run[i].gone[a].to == run[i].gone[b].to
    requires Logged(run[i].csma.s.log, run[i].gone[b].job) > 0
    ensures Logged(run[i].csma.s.log, run[i].gone[a].job) > 0
  {
    HistoryKeeps(lim, run, i);
    var w, d, ja, jb := run[i].csma, run[i].gone[a].to, run[i].gone[a].job, run[i].gone[b].job;
    var done, left := CompletedFor(w.s.log, w.jobs, d), Fifo(w.s.queues, d);
    assert done + left == AcceptedFor(w.jobs, d);
    CsmaTheorems.AcceptedIncreasing(w.jobs, d);
    AcceptedHas(w.jobs, d, ja);
    LoggedIsDone(w.s.log, w.jobs, d, jb);
    var x :| 0 <= x < |AcceptedFor(w.jobs, d)| && AcceptedFor(w.jobs, d)[x] == ja;
    var y :| 0 <= y < |done| && done[y] == jb;
    assert AcceptedFor(w.jobs, d)[y] == jb;
    assert x < y;
    assert done[x] == ja;
    DoneIsLogged(w.s.log, w.jobs, d, ja);
  }

  lemma {:induction false} AcceptedHas(jobs: seq<Job>, d: LinkId, k: nat)
    requires IsFor(jobs, k, d)
    ensures k in AcceptedFor(jobs, d)
  {
    var l := |jobs| - 1;
    if k < l {
      AcceptedHas(jobs[..l], d, k);
    }
  }

  lemma {:induction false} LoggedIsDone(log: seq<Callback>, jobs: seq<Job>, d: LinkId, k: nat)
    requires IsFor(jobs, k, d) && Logged(log, k) > 0
    ensures k in CompletedFor(log, jobs, d)
  {
    if log[|log| - 1].id != k {
      LoggedIsDone(log[..|log| - 1], jobs, d, k);
    }
  }

  lemma {:induction false} DoneIsLogged(log: seq<Callback>, jobs: seq<Job>, d: LinkId, k: nat)
    requires k in CompletedFor(log, jobs, d)
    ensures Logged(log, k) > 0
  {
    var l := |log| - 1;
    if log[l].id != k {
      DoneIsLogged(log[..l], jobs, d, k);
    }
  }

  // ---- exactly one hand-over per entry ----

  /** The destination the timer is about to send to. */
  function NextDest(b: Box, e: Event): LinkId
    requires e.SendTimer? && b.entries != []
  {
    Destination(b.entries[0], e.unset)
  }

  /** If CSMA accepts the packet of the event, it holds no other one for its destination and does not draw the sentinel. */
  predicate Clean(lim: Limits, b: Box, e: Event)
    requires CanOccur(b, e) && lim.period > 0
  {
    e.SendTimer? && Accepts(lim, b.csma.s, RequestOf(Cleared(b.csma), HandOver(b, e))) ==>
      && Find(b.csma.s.queues, NextDest(b, e)) == |b.csma.s.queues|
      && Delay(0, lim.period, e.rnd) != NOT_SCHEDULED
  }

  /** The event between two neighbouring states of a history is clean. */
  ghost predicate CleanAt(lim: Limits, run: seq<Box>, i: nat)
    requires i < |run| - 1 && lim.period > 0
  {
    exists e :: CanOccur(run[i], e) && run[i + 1] == Next(lim, run[i], e) && Clean(lim, run[i], e)
  }

  /** Every accepted hand-over so far was that of an entry that left. */
  ghost predicate Settled(b: Box) { b.handed == b.gone }

  /** One event keeps hand-overs and departures the same exactly if it is clean. */
  lemma CleanStep(lim: Limits, b: Box, e: Event)
    requires BoxInv(lim, b) && CanOccur(b, e) && Settled(b) && lim.perNeighbour > 0 && lim.period > 0
    ensures Settled(Next(lim, b, e)) <==> Clean(lim, b, e)
  {
    if e.SendTimer? {
      LeavesWhen(lim, b, e);
      assert |b.entries[1..]| != |b.entries|;
    }
  }

  lemma CleanNext(lim: Limits, run: seq<Box>, i: nat)
    requires IsHistory(lim, run) && i + 1 < |run| && Settled(run[i])
    ensures Settled(run[i + 1]) <==> CleanAt(lim, run, i)
  {
    HistoryKeeps(lim, run, i);
    assert Follows(lim, run, i);
    forall e | CanOccur(run[i], e)
      ensures Settled(Next(lim, run[i], e)) <==> Clean(lim, run[i], e)
    {
      CleanStep(lim, run[i], e);
    }
  }

  /** Every event up to state `i` is clean. */
  ghost predicate AllClean(lim: Limits, run: seq<Box>, i: nat)
    requires i < |run| && lim.period > 0
  {
    forall j :: 0 <= j < i ==> CleanAt(lim, run, j)
  }

  lemma {:induction false} SettledFrom(lim: Limits, run: seq<Box>, i: nat)
    requires IsHistory(lim, run) && i < |run|
    ensures (forall j :: 0 <= j <= i ==> Settled(run[j])) <==> AllClean(lim, run, i)
  {
    if i > 0 {
      SettledFrom(lim, run, i - 1);
      assert AllClean(lim, run, i) <==> AllClean(lim, run, i - 1) && CleanAt(lim, run, i - 1);
      if Settled(run[i - 1]) {
        CleanNext(lim, run, i - 1);
      }
    }
  }

  /**
   * In any history the accepted hand-overs are, throughout, the entries that left if and only if
   * CSMA never accepts an entry behind another packet for its destination or with the sentinel as
   * its delay.
   */
  lemma HandedOnceWhen(lim: Limits, run: seq<Box>)
    requires IsHistory(lim, run)
    ensures (forall i :: 0 <= i < |run| ==> run[i].handed == run[i].gone) <==> forall i :: 0 <= i < |run| - 1 ==> CleanAt(lim, run, i)
  {
    SettledFrom(lim, run, |run| - 1);
    assert forall i :: 0 <= i < |run| ==> (Settled(run[i]) <==> run[i].handed == run[i].gone);
  }

  /** An event that hands over only to a destination for which CSMA holds nothing. */
  ghost predicate OccursAlone(lim: Limits, b: Box, b': Box)
  {
    exists e :: CanOccur(b, e) && b' == Next(lim, b, e)
             && (e.SendTimer? ==> Find(b.csma.s.queues, NextDest(b, e)) == |b.csma.s.queues|)
  }

  ghost predicate NeverBehind(lim: Limits, run: seq<Box>)
  {
    forall i :: 0 <= i < |run| - 1 ==> AloneAt(lim, run, i)
  }

  ghost predicate AloneAt(lim: Limits, run: seq<Box>, i: nat)
    requires i < |run| - 1
  {
    OccursAlone(lim, run[i], run[i + 1])
  }

  lemma AloneIsClean(lim: Limits, run: seq<Box>, i: nat)
    requires i < |run| - 1 && AloneAt(lim, run, i) && 0 < lim.period <= 142
    ensures CleanAt(lim, run, i)
  {
    var e :| CanOccur(run[i], e) && run[i + 1] == Next(lim, run[i], e)
          && (e.SendTimer? ==> Find(run[i].csma.s.queues, NextDest(run[i], e)) == |run[i].csma.s.queues|);
    if e.SendTimer? {
      CsmaTheorems.SpanValues(0, lim.period);
      DelayBelow(0, lim.period, e.rnd);
    }
    assert Clean(lim, run[i], e);
  }

  /**
   * If no entry is ever handed over behind another packet for its destination, every entry is
   * accepted exactly once: the accepted hand-overs are the entries that left, in order.
   */
  lemma HandedOnce(lim: Limits, run: seq<Box>, i: nat)
    requires IsHistory(lim, run) && NeverBehind(lim, run) && lim.period <= 142 && i < |run|
    ensures run[i].handed == run[i].gone
    ensures run[i].queued == Outs(run[i].handed) + run[i].entries
  {
    forall j | 0 <= j < |run| - 1
      ensures CleanAt(lim, run, j)
    {
      assert AloneAt(lim, run, j);
      AloneIsClean(lim, run, j);
    }
    HandedOnceWhen(lim, run);
    HistoryKeeps(lim, run, i);
  }

  // ---- a history with a duplicate ----

  /** A Load and then a Share are queued for `parent`; the timer fires three times while the Load is in CSMA. */
  function LoadThenShare(parent: LinkId, load: int, share: int): (r: seq<Event>)
    ensures |r| == 5
  {
    var send := SendTimer(parent, 0, true, 1, 0);
    [Event.Queue(Out(Some(parent), Load(load))), Event.Queue(Out(Some(parent), Share(share))), send, send, send]
  }

  lemma FirstTimer(lim: Limits, b: Box, parent: LinkId)
    requires lim.neighbours > 0 && lim.packets > 2 && lim.perNeighbour > 2 && lim.period > 0
    requires |b.entries| == 2 && b.armed && b.csma == World(Idle, []) && b.gone == b.handed == []
    requires b.entries[0].dest == b.entries[1].dest == Some(parent)
    ensures var e, g := SendTimer(parent, 0, true, 1, 0), Gone(b.entries[0], parent, 0);
            var b' := Next(lim, b, e);
            && CanOccur(b, e) && b'.entries == [b.entries[1]] && b'.armed && b'.queued == b.queued
            && b'.gone == b'.handed == [g] && |b'.csma.jobs| == 1 && InCsma(b'.csma.s, parent, 1)
  {
    var e := SendTimer(parent, 0, true, 1, 0);
    var r := RequestOf(Cleared(b.csma), HandOver(b, e));
    var s := Cleared(b.csma).s;
    AcceptEffect(lim, s, r, 1, 0);
    DelayBelow(0, lim.period, 0);
    CsmaTheorems.SpanValues(0, lim.period);
  }

  /** CSMA holds `k` packets, all for one destination. */
  ghost predicate InCsma(s: State, d: LinkId, k: nat)
  {
    |s.queues| == 1 && s.queues[0].addr == d && |s.queues[0].packets| == k > 0
    && s.packets == s.metadata == k && s.initialized
  }

  lemma LaterTimer(lim: Limits, b: Box, parent: LinkId, k: nat)
    requires lim.packets > 2 && lim.perNeighbour > 2 && 0 < k < 3
    requires |b.entries| == 1 && b.armed && b.entries[0].dest == Some(parent)
    requires InCsma(b.csma.s, parent, k) && |b.csma.jobs| == k
    ensures var e, g := SendTimer(parent, 0, true, 1, 0), Gone(b.entries[0], parent, k);
            var b' := Next(lim, b, e);
            && CanOccur(b, e) && b'.entries == b.entries && b'.armed && b'.queued == b.queued
            && b'.gone == b.gone && b'.handed == b.handed + [g] && |b'.csma.jobs| == k + 1 && InCsma(b'.csma.s, parent, k + 1)
  {
    var e := SendTimer(parent, 0, true, 1, 0);
    var s := Cleared(b.csma).s;
    var r := RequestOf(Cleared(b.csma), HandOver(b, e));
    assert Find(s.queues, parent) == 0;
    AcceptEffect(lim, s, r, 1, 0);
  }

  /** The states a list of events leads through. */
  ghost predicate Leads(lim: Limits, run: seq<Box>, events: seq<Event>)
  {
    |run| == |events| + 1 && forall i :: 0 <= i < |events| ==> Reached(lim, run, events, i)
  }

  ghost predicate Reached(lim: Limits, run: seq<Box>, events: seq<Event>, i: nat)
    requires i < |events| && |run| == |events| + 1
  {
    CanOccur(run[i], events[i]) && run[i + 1] == Next(lim, run[i], events[i])
  }

  /**
   * The ordinary pair of a Load and a Share for one parent is enough for a duplicate: with the Load
   * still in CSMA, the one queued Share is accepted twice and is still the first entry.
   */
  lemma ShareTwice(lim: Limits, parent: LinkId, load: int, share: int) returns (run: seq<Box>)
    requires lim.neighbours > 0 && lim.packets > 2 && lim.perNeighbour > 2 && lim.period > 0
    ensures IsHistory(lim, run) && Leads(lim, run, LoadThenShare(parent, load, share))
    ensures var b, out := run[5], Out(Some(parent), Share(share));
            && b.queued == [Out(Some(parent), Load(load)), out] && b.entries == [out]
            && |b.handed| == 3 && b.handed[1] == Gone(out, parent, 1) && b.handed[2] == Gone(out, parent, 2)
            && IsFor(b.csma.jobs, 1, parent) && IsFor(b.csma.jobs, 2, parent)
  {
    var events := LoadThenShare(parent, load, share);
    var b0 := Box([], false, World(Idle, []), [], [], []);
    var b1 := Next(lim, b0, events[0]);
    var b2 := Next(lim, b1, events[1]);
    FirstTimer(lim, b2, parent);
    var b3 := Next(lim, b2, events[2]);
    LaterTimer(lim, b3, parent, 1);
    var b4 := Next(lim, b3, events[3]);
    LaterTimer(lim, b4, parent, 2);
    var b5 := Next(lim, b4, events[4]);
    run := [b0, b1, b2, b3, b4, b5];
    forall i | 0 <= i < 5
      ensures Reached(lim, run, events, i)
    {
    }
    LeadsIsHistory(lim, run, events);
    HandedAreJobs(lim, run, 5);
  }

  lemma LeadsIsHistory(lim: Limits, run: seq<Box>, events: seq<Event>)
    requires Leads(lim, run, events) && lim.perNeighbour > 0 && lim.period > 0
    requires run[0] == Box([], false, World(Idle, []), [], [], [])
    ensures IsHistory(lim, run)
  {
    forall i | 0 <= i < |run| - 1
      ensures Follows(lim, run, i)
    {
      assert Reached(lim, run, events, i);
    }
  }

  /** Every accepted hand-over is an accepted job of its destination. */
  lemma {:induction false} HandedAreJobs(lim: Limits, run: seq<Box>, i: nat)
    requires IsHistory(lim, run) && i < |run|
    ensures forall k :: 0 <= k < |run[i].handed| ==> IsFor(run[i].csma.jobs, run[i].handed[k].job, run[i].handed[k].to)
  {
    if i > 0 {
      HandedAreJobs(lim, run, i - 1);
      assert Follows(lim, run, i - 1);
      var b, b' := run[i - 1], run[i];
      var e :| CanOccur(b, e) && b' == Next(lim, b, e);
      HandedStep(lim, b, e);
    }
  }

  lemma HandedStep(lim: Limits, b: Box, e: Event)
    requires CanOccur(b, e)
    requires forall k :: 0 <= k < |b.handed| ==> IsFor(b.csma.jobs, b.handed[k].job, b.handed[k].to)
    ensures var b' := Next(lim, b, e);
            forall k :: 0 <= k < |b'.handed| ==> IsFor(b'.csma.jobs, b'.handed[k].job, b'.handed[k].to)
  {
    var b' := Next(lim, b, e);
    forall k | 0 <= k < |b'.handed|
      ensures IsFor(b'.csma.jobs, b'.handed[k].job, b'.handed[k].to)
    {
      if k < |b.handed| {
        assert b'.handed[k] == b.handed[k] && IsFor(b.csma.jobs, b.handed[k].job, b.handed[k].to);
      }
    }
  }
}
