/**
 * A round over the nodes' real output: handlers queue payloads, the send timer hands them to CSMA, and
 * every accepted hand-over arrives once or is lost. While every hand-over is clean this
 * system does nothing that a round with single messages does not.
 */
module RoundOutbox {
  import opened Types
  import opened NodeModel
  import opened RoundLocal
  import opened Round
  import opened RoundInv
  import opened RoundSafety
  import opened RoundLoads
  import RoundTheorems
  import CsmaRuns
  import Csma
  import Outbox

  /** Nodes with their queues, and which accepted hand-overs of each have arrived. */
  datatype Full = Full(nodes: seq<Node>, boxes: seq<Outbox.Box>, arrived: seq<set<nat>>)

  /** An event of the node's queue or of CSMA, or the arrival of hand-over `k` of `u`; handlers queue `outs`. */
  datatype Act = Local(u: nat, e: Outbox.Event) | Arrive(u: nat, k: nat, draw: int, outs: seq<Out>)

  function Receiver(w: Full, a: Act): nat
    requires a.Arrive? && a.u < |w.boxes| && a.k < |w.boxes[a.u].handed| && w.boxes[a.u].handed[a.k].out.dest.Some?
  {
    w.boxes[a.u].handed[a.k].out.dest.value
  }

  /** The channel it arrives on. */
  function Way(w: Full, a: Act): Chan
    requires a.Arrive? && a.u < |w.boxes| && a.k < |w.boxes[a.u].handed| && w.boxes[a.u].handed[a.k].out.dest.Some?
  {
    Chan(KindOf(w.boxes[a.u].handed[a.k].out.msg), a.u, Receiver(w, a))
  }

  /** What the receiver's handler does. */
  function Reaction(w: Full, a: Act): Res
    requires a.Arrive? && a.u < |w.boxes| && a.k < |w.boxes[a.u].handed| && w.boxes[a.u].handed[a.k].out.dest.Some?
    requires Receiver(w, a) < |w.nodes|
  {
    React(w.nodes[Receiver(w, a)], a.u, w.boxes[a.u].handed[a.k].out.msg, a.draw)
  }

  /** A hand-over arrives once at most; the handler's messages are queued in some order. */
  ghost predicate CanAct(c: Config, w: Full, a: Act)
  {
    && |w.nodes| == |w.boxes| == |w.arrived| == c.n && a.u < c.n
    && match a
       case Local(u, e) => !e.Queue? && Outbox.CanOccur(w.boxes[u], e)
       case Arrive(u, k, draw, outs) =>
         && k < |w.boxes[u].handed| && k !in w.arrived[u] && w.boxes[u].handed[k].out.dest.Some? && 0 <= draw < 200
         && Receiver(w, a) < c.n && multiset(outs) == multiset(Reaction(w, a).outs)
  }

  /** A handler's messages join the queue. */
  function QueueAll(b: Outbox.Box, outs: seq<Out>): Outbox.Box
  {
    if outs == [] then b else b.(entries := b.entries + outs, armed := true, queued := b.queued + outs)
  }

  /** ... one event of the queue after the other. */
  lemma QueueAllStep(lim: Csma.Limits, b: Outbox.Box, outs: seq<Out>, x: Out)
    ensures QueueAll(b, outs + [x]) == Outbox.Next(lim, QueueAll(b, outs), Outbox.Queue(x))
  {
    assert b.entries + (outs + [x]) == (b.entries + outs) + [x];
    assert b.queued + (outs + [x]) == (b.queued + outs) + [x];
  }

  function Do(c: Config, lim: Csma.Limits, w: Full, a: Act): Full
    requires CanAct(c, w, a)
  {
    match a
    case Local(u, e) => w.(boxes := w.boxes[u := Outbox.Next(lim, w.boxes[u], e)])
    case Arrive(u, k, draw, outs) =>
      var v := Receiver(w, a);
      Full(w.nodes[v := Reaction(w, a).node], w.boxes[v := QueueAll(w.boxes[v], outs)], w.arrived[u := w.arrived[u] + {k}])
  }

  /** The event is clean: what CSMA accepts, it takes as the first packet for its destination. */
  ghost predicate CleanAct(lim: Csma.Limits, w: Full, a: Act)
    requires lim.period > 0
  {
    a.Local? && a.u < |w.boxes| && Outbox.CanOccur(w.boxes[a.u], a.e) ==> Outbox.Clean(lim, w.boxes[a.u], a.e)
  }

  /** Nothing queued or recorded yet, whatever CSMA still holds. */
  ghost predicate Unused(lim: Csma.Limits, b: Outbox.Box)
  {
    CsmaRuns.Inv(lim, b.csma) && b == Outbox.Box([], false, b.csma, [], [], [])
  }

  /** The root's timer fires on an empty network. */
  ghost predicate Started(c: Config, lim: Csma.Limits, nodes: seq<Node>, draw: int, w: Full)
  {
    && ReadyFor(c, nodes) && 0 <= draw < 200
    && |w.boxes| == |w.arrived| == c.n
    && w.nodes == nodes[c.root := OnRootTimer(nodes[c.root], draw).node]
    && (forall v :: 0 <= v < c.n ==> w.arrived[v] == {})
    && (forall v :: 0 <= v < c.n && v != c.root ==> Unused(lim, w.boxes[v]))
    && exists b, outs :: Unused(lim, b) && multiset(outs) == multiset(OnRootTimer(nodes[c.root], draw).outs) && w.boxes[c.root] == QueueAll(b, outs)
  }

  ghost predicate IsFullRun(c: Config, lim: Csma.Limits, run: seq<Full>)
  {
    && run != [] && (exists nodes, draw: int :: Started(c, lim, nodes, draw, run[0]))
    && AllAct(c, lim, run)
  }

  ghost predicate AllAct(c: Config, lim: Csma.Limits, run: seq<Full>)
  {
    lim.perNeighbour > 0 && lim.period > 0 && forall i :: 0 <= i < |run| - 1 ==> ActsAt(c, lim, run, i)
  }

  /** One clean event leads from each state to the next. */
  ghost predicate ActsAt(c: Config, lim: Csma.Limits, run: seq<Full>, i: nat)
    requires i < |run| - 1 && lim.period > 0
  {
    ActsCleanly(c, lim, run[i], run[i + 1])
  }

  ghost predicate ActsCleanly(c: Config, lim: Csma.Limits, w: Full, w': Full)
    requires lim.period > 0
  {
    exists a :: CanAct(c, w, a) && CleanAct(lim, w, a) && w' == Do(c, lim, w, a)
  }

  // ---- the messages of one kind to one node ----

  predicate IsTo(o: Out, k: Kind, v: LinkId)
  {
    o.dest == Some(v) && KindOf(o.msg) == k
  }

  lemma ToSplit(outs: seq<Out>, e: nat, k: Kind, v: LinkId)
    requires e < |outs|
    ensures To(outs, k, v) == To(outs[..e], k, v) + To([outs[e]], k, v) + To(outs[e + 1..], k, v)
  {
    assert outs == (outs[..e] + [outs[e]]) + outs[e + 1..];
    ToConcat(outs[..e] + [outs[e]], outs[e + 1..], k, v);
    ToConcat(outs[..e], [outs[e]], k, v);
  }

  lemma ToHas(outs: seq<Out>, e: nat, k: Kind, v: LinkId)
    requires e < |outs| && IsTo(outs[e], k, v)
    ensures |To(outs, k, v)| >= 1
    ensures |To(outs, k, v)| == 1 ==> To(outs, k, v) == [outs[e].msg]
  {
    ToSplit(outs, e, k, v);
    ToOne(outs[e], k, v);
  }

  /** Two entries give two messages. */
  lemma ToTwice(outs: seq<Out>, d: nat, e: nat, k: Kind, v: LinkId)
    requires d < e < |outs| && IsTo(outs[d], k, v) && IsTo(outs[e], k, v)
    ensures |To(outs, k, v)| >= 2
  {
    ToSplit(outs, e, k, v);
    ToOne(outs[e], k, v);
    ToHas(outs[..e], d, k, v);
  }

  /** Takes one occurrence of `x` out. */
  lemma TakeOut(b: seq<Out>, x: Out) returns (l: seq<Out>, r: seq<Out>)
    requires x in multiset(b)
    ensures b == l + ([x] + r) && multiset(l + r) == multiset(b) - multiset{x}
  {
    var e :| 0 <= e < |b| && b[e] == x;
    l, r := b[..e], b[e + 1..];
    assert b == l + ([x] + r);
  }

  lemma ToAround(l: seq<Out>, x: Out, r: seq<Out>, k: Kind, v: LinkId)
    ensures multiset(To(l + ([x] + r), k, v)) == multiset(To([x], k, v)) + multiset(To(l + r, k, v))
  {
    ToConcat(l, [x] + r, k, v);
    ToConcat([x], r, k, v);
    ToConcat(l, r, k, v);
  }

  /** Permuting what is queued permutes the messages. */
  lemma {:induction false} ToPermute(a: seq<Out>, b: seq<Out>, k: Kind, v: LinkId)
    requires multiset(a) == multiset(b)
    ensures multiset(To(a, k, v)) == multiset(To(b, k, v))
    decreases |a|
  {
    if a == [] {
      assert |multiset(b)| == 0;
    } else {
      var x := a[0];
      assert a == [] + ([x] + a[1..]) && a[1..] == [] + a[1..];
      assert multiset(a[1..]) == multiset(a) - multiset{x};
      var l, r := TakeOut(b, x);
      ToPermute(a[1..], l + r, k, v);
      ToAround([], x, a[1..], k, v);
      ToAround(l, x, r, k, v);
    }
  }

  lemma SameSingle(a: seq<Msg>, b: seq<Msg>)
    requires |b| <= 1 && multiset(a) == multiset(b)
    ensures a == b
  {
    assert |a| == |multiset(a)| == |b|;
    if a != [] {
      assert a[0] in multiset(b);
    }
  }

  // ---- the relation to a round ----

  function MsgsOf(cs: seq<Cell>): (r: seq<Msg>)
    ensures |r| == |cs| && forall i :: 0 <= i < |cs| ==> r[i] == cs[i].msg
  {
    seq(|cs|, i requires 0 <= i < |cs| => cs[i].msg)
  }

  /** A channel holds what was queued for it, delivered exactly when it has arrived. */
  ghost predicate ChanRel(cs: seq<Cell>, queued: seq<Out>, arrived: set<nat>, k: Kind, v: nat)
  {
    && |cs| <= 1 && MsgsOf(cs) == To(queued, k, v)
    && forall e :: 0 <= e < |queued| && IsTo(queued[e], k, v) ==>
         |cs| == 1 && cs[0].status == if e in arrived then Delivered else InFlight
  }

  /** What was handed over is what left, and only that can have arrived. */
  ghost predicate BoxRel(lim: Csma.Limits, b: Outbox.Box, arrived: set<nat>)
  {
    Outbox.BoxInv(lim, b) && Outbox.Settled(b) && forall k :: k in arrived ==> k < |b.handed|
  }

  ghost predicate BoxesRel(n: nat, lim: Csma.Limits, boxes: seq<Outbox.Box>, arrived: seq<set<nat>>)
  {
    |boxes| == |arrived| == n && forall u :: 0 <= u < n ==> BoxRel(lim, boxes[u], arrived[u])
  }

  ghost predicate ChansRel(n: nat, net: Chan -> seq<Cell>, boxes: seq<Outbox.Box>, arrived: seq<set<nat>>)
  {
    && |boxes| == |arrived| == n
    && forall k, u, v :: 0 <= u < n && 0 <= v < n ==> ChanRel(net(Chan(k, u, v)), boxes[u].queued, arrived[u], k, v)
  }

  /** The same nodes, and channels that hold what the nodes have queued. */
  ghost predicate Rel(c: Config, lim: Csma.Limits, w: Full, s: Sys)
  {
    s.nodes == w.nodes && BoxesRel(c.n, lim, w.boxes, w.arrived) && ChansRel(c.n, s.net, w.boxes, w.arrived)
  }

  /** The message of an entry arrives. */
  lemma ChanArrives(cs: seq<Cell>, queued: seq<Out>, arrived: set<nat>, k: Kind, v: nat, e: nat)
    requires ChanRel(cs, queued, arrived, k, v) && e < |queued| && IsTo(queued[e], k, v)
    ensures |cs| == 1 && ChanRel(cs[0 := cs[0].(status := Delivered)], queued, arrived + {e}, k, v)
  {
    forall d | 0 <= d < |queued| && IsTo(queued[d], k, v)
      ensures d == e
    {
      if d < e { ToTwice(queued, d, e, k, v); }
      if e < d { ToTwice(queued, e, d, k, v); }
    }
    assert MsgsOf(cs[0 := cs[0].(status := Delivered)]) == MsgsOf(cs);
  }

  lemma ChanUntouched(cs: seq<Cell>, queued: seq<Out>, arrived: set<nat>, k: Kind, v: nat, e: nat)
    requires ChanRel(cs, queued, arrived, k, v) && e < |queued| && !IsTo(queued[e], k, v)
    ensures ChanRel(cs, queued, arrived + {e}, k, v)
  {
  }

  lemma MsgsAdd(cs: seq<Cell>, ms: seq<Msg>)
    ensures MsgsOf(cs + Fresh(ms)) == MsgsOf(cs) + ms
  {
  }

  /** The order in which a single message is queued among others does not matter to its channel. */
  lemma QueuedOrder(outs: seq<Out>, order: seq<Out>, k: Kind, v: nat)
    requires multiset(order) == multiset(outs) && |To(outs, k, v)| <= 1
    ensures To(order, k, v) == To(outs, k, v)
  {
    ToPermute(order, outs, k, v);
    SameSingle(To(order, k, v), To(outs, k, v));
  }

  lemma QueuedStatus(cs: seq<Cell>, queued: seq<Out>, arrived: set<nat>, k: Kind, v: nat, order: seq<Out>, e: nat)
    requires ChanRel(cs, queued, arrived, k, v) && (forall d :: d in arrived ==> d < |queued|)
    requires e < |queued + order| && IsTo((queued + order)[e], k, v) && |cs| + |To(order, k, v)| <= 1
    ensures var all := cs + Fresh(To(order, k, v));
            |all| == 1 && all[0].status == if e in arrived then Delivered else InFlight
  {
    if e < |queued| {
      ToHas(queued, e, k, v);
    } else {
      ToHas(order, e - |queued|, k, v);
    }
  }

  /** A handler queues messages in some order. */
  lemma ChanQueues(cs: seq<Cell>, queued: seq<Out>, arrived: set<nat>, k: Kind, v: nat, outs: seq<Out>, order: seq<Out>)
    requires ChanRel(cs, queued, arrived, k, v) && multiset(order) == multiset(outs)
    requires (forall d :: d in arrived ==> d < |queued|) && |cs + Fresh(To(outs, k, v))| <= 1
    ensures ChanRel(cs + Fresh(To(outs, k, v)), queued + order, arrived, k, v)
  {
    QueuedOrder(outs, order, k, v);
    MsgsAdd(cs, To(order, k, v));
    ToConcat(queued, order, k, v);
    forall e | 0 <= e < |queued + order| && IsTo((queued + order)[e], k, v)
      ensures var all := cs + Fresh(To(order, k, v)); |all| == 1 && all[0].status == if e in arrived then Delivered else InFlight
    {
      QueuedStatus(cs, queued, arrived, k, v, order, e);
    }
  }

  // ---- every step keeps it ----

  lemma LocalBox(lim: Csma.Limits, b: Outbox.Box, arrived: set<nat>, e: Outbox.Event)
    requires BoxRel(lim, b, arrived) && !e.Queue? && Outbox.CanOccur(b, e)
    requires lim.perNeighbour > 0 && lim.period > 0 && Outbox.Clean(lim, b, e)
    ensures BoxRel(lim, Outbox.Next(lim, b, e), arrived) && Outbox.Next(lim, b, e).queued == b.queued
  {
    Outbox.BoxStep(lim, b, Outbox.Next(lim, b, e));
    Outbox.CleanStep(lim, b, e);
  }

  lemma LocalKeeps(c: Config, lim: Csma.Limits, w: Full, s: Sys, a: Act)
    requires Rel(c, lim, w, s) && CanAct(c, w, a) && a.Local? && lim.perNeighbour > 0 && lim.period > 0 && CleanAct(lim, w, a)
    ensures Rel(c, lim, Do(c, lim, w, a), s)
  {
    LocalBox(lim, w.boxes[a.u], w.arrived[a.u], a.e);
  }

  lemma QueuedBox(lim: Csma.Limits, b: Outbox.Box, arrived: set<nat>, outs: seq<Out>)
    requires BoxRel(lim, b, arrived)
    ensures BoxRel(lim, QueueAll(b, outs), arrived) && QueueAll(b, outs).queued == b.queued + outs
  {
    assert Outbox.Outs(b.gone) + (b.entries + outs) == (Outbox.Outs(b.gone) + b.entries) + outs;
  }

  lemma ArrivedBox(lim: Csma.Limits, b: Outbox.Box, arrived: set<nat>, k: nat)
    requires BoxRel(lim, b, arrived) && k < |b.handed|
    ensures BoxRel(lim, b, arrived + {k})
  {
  }

  lemma BoundArrived(lim: Csma.Limits, b: Outbox.Box, arrived: set<nat>)
    requires BoxRel(lim, b, arrived)
    ensures forall k :: k in arrived ==> k < |b.queued|
  {
    assert |b.queued| == |b.gone| + |b.entries|;
  }

  /** The hand-over that arrives is the entry queued at the same position. */
  lemma HandedIsQueued(lim: Csma.Limits, b: Outbox.Box, arrived: set<nat>, k: nat)
    requires BoxRel(lim, b, arrived) && k < |b.handed|
    ensures k < |b.queued| && b.queued[k] == b.handed[k].out
  {
    assert b.queued[k] == Outbox.Outs(b.gone)[k];
  }

  /** What arrives was under way in the round. */
  lemma ArrivalEnabled(c: Config, lim: Csma.Limits, w: Full, s: Sys, a: Act)
    requires Rel(c, lim, w, s) && CanAct(c, w, a) && a.Arrive?
    ensures Enabled(c, s, Deliver(Way(w, a), 0, a.draw)) && s.net(Way(w, a))[0].msg == w.boxes[a.u].handed[a.k].out.msg
  {
    var b, v := w.boxes[a.u], Receiver(w, a);
    var k := KindOf(b.handed[a.k].out.msg);
    assert BoxRel(lim, b, w.arrived[a.u]);
    HandedIsQueued(lim, b, w.arrived[a.u], a.k);
    assert ChanRel(s.net(Chan(k, a.u, v)), b.queued, w.arrived[a.u], k, v);
    ToHas(b.queued, a.k, k, v);
  }

  /** A channel of the round after a delivery. */
  lemma DeliveredChan(c: Config, s: Sys, ch: Chan, draw: int, k: Kind, x: nat, y: nat)
    requires Inv(c, s) && Enabled(c, s, Deliver(ch, 0, draw)) && x < c.n && y < c.n
    ensures ch.src != ch.dst
    ensures var at, s' := Chan(k, x, y), Step(c, s, Deliver(ch, 0, draw));
            if x == ch.dst then
              s'.net(at) == s.net(at) + Fresh(To(React(s.nodes[x], ch.src, s.net(ch)[0].msg, draw).outs, k, y)) && |s'.net(at)| <= 1
            else
              s'.net(at) == if at == ch then s.net(at)[0 := s.net(at)[0].(status := Delivered)] else s.net(at)
  {
    UnderWay(c, s, ch, 0);
    if x == ch.dst {
      AfterDelivery(c, s, ch, 0, draw, k, y);
      DeliverInv(c, s, ch, 0, draw);
      assert ChanInv(c, Step(c, s, Deliver(ch, 0, draw)), k, x, y);
    }
  }

  /** A channel out of the sender. */
  lemma ChanFromSender(lim: Csma.Limits, cs: seq<Cell>, b: Outbox.Box, arrived: set<nat>, k: Kind, y: nat, e: nat)
    requires BoxRel(lim, b, arrived) && ChanRel(cs, b.queued, arrived, k, y) && e < |b.handed|
    ensures IsTo(b.handed[e].out, k, y) ==> |cs| == 1
    ensures ChanRel(if IsTo(b.handed[e].out, k, y) then cs[0 := cs[0].(status := Delivered)] else cs, b.queued, arrived + {e}, k, y)
  {
    HandedIsQueued(lim, b, arrived, e);
    if IsTo(b.handed[e].out, k, y) {
      ChanArrives(cs, b.queued, arrived, k, y, e);
    } else {
      ChanUntouched(cs, b.queued, arrived, k, y, e);
    }
  }

  /** One channel after an arrival. */
  lemma ArrivalChan(c: Config, lim: Csma.Limits, w: Full, s: Sys, a: Act, k: Kind, x: nat, y: nat)
    requires Inv(c, s) && Rel(c, lim, w, s) && CanAct(c, w, a) && a.Arrive? && x < c.n && y < c.n
    requires Enabled(c, s, Deliver(Way(w, a), 0, a.draw)) && s.net(Way(w, a))[0].msg == w.boxes[a.u].handed[a.k].out.msg
    ensures var v, s' := Receiver(w, a), Step(c, s, Deliver(Way(w, a), 0, a.draw));
            ChanRel(s'.net(Chan(k, x, y)), if x == v then w.boxes[x].queued + a.outs else w.boxes[x].queued,
                    if x == a.u then w.arrived[x] + {a.k} else w.arrived[x], k, y)
  {
    var b, cs := w.boxes[x], s.net(Chan(k, x, y));
    DeliveredChan(c, s, Way(w, a), a.draw, k, x, y);
    assert BoxRel(lim, b, w.arrived[x]) && ChanRel(cs, b.queued, w.arrived[x], k, y);
    if x == Receiver(w, a) {
      BoundArrived(lim, b, w.arrived[x]);
      ChanQueues(cs, b.queued, w.arrived[x], k, y, Reaction(w, a).outs, a.outs);
    } else if x == a.u {
      ChanFromSender(lim, cs, b, w.arrived[x], k, y, a.k);
    }
  }

  lemma ArrivalBox(c: Config, lim: Csma.Limits, w: Full, a: Act, x: nat)
    requires BoxesRel(c.n, lim, w.boxes, w.arrived) && CanAct(c, w, a) && a.Arrive? && x < c.n
    ensures var w' := Do(c, lim, w, a);
            && BoxRel(lim, w'.boxes[x], w'.arrived[x])
            && w'.boxes[x].queued == (if x == Receiver(w, a) then w.boxes[x].queued + a.outs else w.boxes[x].queued)
            && w'.arrived[x] == if x == a.u then w.arrived[x] + {a.k} else w.arrived[x]
  {
    assert BoxRel(lim, w.boxes[x], w.arrived[x]);
    QueuedBox(lim, w.boxes[x], w.arrived[x], a.outs);
    if x == a.u {
      ArrivedBox(lim, Do(c, lim, w, a).boxes[x], w.arrived[x], a.k);
    }
  }

  lemma ArrivalBoxes(c: Config, lim: Csma.Limits, w: Full, a: Act)
    requires BoxesRel(c.n, lim, w.boxes, w.arrived) && CanAct(c, w, a) && a.Arrive?
    ensures BoxesRel(c.n, lim, Do(c, lim, w, a).boxes, Do(c, lim, w, a).arrived)
  {
    forall x | 0 <= x < c.n
      ensures BoxRel(lim, Do(c, lim, w, a).boxes[x], Do(c, lim, w, a).arrived[x])
    {
      ArrivalBox(c, lim, w, a, x);
    }
  }

  lemma ArrivalChans(c: Config, lim: Csma.Limits, w: Full, s: Sys, a: Act)
    requires Inv(c, s) && Rel(c, lim, w, s) && CanAct(c, w, a) && a.Arrive?
    requires Enabled(c, s, Deliver(Way(w, a), 0, a.draw)) && s.net(Way(w, a))[0].msg == w.boxes[a.u].handed[a.k].out.msg
    ensures ChansRel(c.n, Step(c, s, Deliver(Way(w, a), 0, a.draw)).net, Do(c, lim, w, a).boxes, Do(c, lim, w, a).arrived)
  {
    var w', net := Do(c, lim, w, a), Step(c, s, Deliver(Way(w, a), 0, a.draw)).net;
    forall k, x, y | 0 <= x < c.n && 0 <= y < c.n
      ensures ChanRel(net(Chan(k, x, y)), w'.boxes[x].queued, w'.arrived[x], k, y)
    {
      ArrivalChan(c, lim, w, s, a, k, x, y);
      ArrivalBox(c, lim, w, a, x);
    }
  }

  lemma ArrivalKeeps(c: Config, lim: Csma.Limits, w: Full, s: Sys, a: Act) returns (s': Sys)
    requires Inv(c, s) && Rel(c, lim, w, s) && CanAct(c, w, a) && a.Arrive?
    ensures IsStep(c, s, s') && Rel(c, lim, Do(c, lim, w, a), s')
  {
    ArrivalEnabled(c, lim, w, s, a);
    s' := Step(c, s, Deliver(Way(w, a), 0, a.draw));
    ArrivalBoxes(c, lim, w, a);
    ArrivalChans(c, lim, w, s, a);
  }

  // ---- whole runs ----

  lemma UnusedBox(lim: Csma.Limits, b: Outbox.Box)
    requires Unused(lim, b)
    ensures BoxRel(lim, b, {})
  {
  }

  lemma RootChan(c: Config, nodes: seq<Node>, draw: int, order: seq<Out>, k: Kind, y: nat)
    requires ReadyFor(c, nodes) && c.nbrs[c.root] != [] && y < c.n
    requires multiset(order) == multiset(OnRootTimer(nodes[c.root], draw).outs)
    ensures ChanRel(Begin(c, nodes, draw).net(Chan(k, c.root, y)), order, {}, k, y)
  {
    var outs := OnRootTimer(nodes[c.root], draw).outs;
    BeginInv(c, nodes, draw);
    assert ChanInv(c, Begin(c, nodes, draw), k, c.root, y);
    assert [] + order == order && [] + Fresh(To(outs, k, y)) == Fresh(To(outs, k, y));
    ChanQueues([], [], {}, k, y, outs, order);
  }

  /** Only the root has sent anything when a round begins. */
  lemma SilentChan(c: Config, nodes: seq<Node>, draw: int, k: Kind, x: nat, y: nat)
    requires ReadyFor(c, nodes) && x != c.root
    ensures Begin(c, nodes, draw).net(Chan(k, x, y)) == [] && ChanRel([], [], {}, k, y)
  {
  }

  lemma RootQueue(c: Config, lim: Csma.Limits, nodes: seq<Node>, draw: int, w: Full) returns (order: seq<Out>)
    requires Started(c, lim, nodes, draw, w)
    ensures multiset(order) == multiset(OnRootTimer(nodes[c.root], draw).outs) && w.boxes[c.root].queued == order
  {
    var b, outs :| Unused(lim, b) && multiset(outs) == multiset(OnRootTimer(nodes[c.root], draw).outs) && w.boxes[c.root] == QueueAll(b, outs);
    order := outs;
  }

  lemma StartChan(c: Config, lim: Csma.Limits, nodes: seq<Node>, draw: int, w: Full, k: Kind, x: nat, y: nat)
    requires Started(c, lim, nodes, draw, w) && c.nbrs[c.root] != [] && x < c.n && y < c.n
    ensures ChanRel(Begin(c, nodes, draw).net(Chan(k, x, y)), w.boxes[x].queued, w.arrived[x], k, y)
  {
    if x == c.root {
      var order := RootQueue(c, lim, nodes, draw, w);
      RootChan(c, nodes, draw, order, k, y);
    } else {
      SilentChan(c, nodes, draw, k, x, y);
    }
  }

  lemma StartBox(c: Config, lim: Csma.Limits, nodes: seq<Node>, draw: int, w: Full, x: nat)
    requires Started(c, lim, nodes, draw, w) && x < c.n
    ensures BoxRel(lim, w.boxes[x], w.arrived[x])
  {
    if x == c.root {
      var b, order :| Unused(lim, b) && multiset(order) == multiset(OnRootTimer(nodes[c.root], draw).outs) && w.boxes[x] == QueueAll(b, order);
      UnusedBox(lim, b);
      QueuedBox(lim, b, {}, order);
    } else {
      UnusedBox(lim, w.boxes[x]);
    }
  }

  lemma StartRel(c: Config, lim: Csma.Limits, nodes: seq<Node>, draw: int, w: Full)
    requires Started(c, lim, nodes, draw, w) && c.nbrs[c.root] != []
    ensures Rel(c, lim, w, Begin(c, nodes, draw))
  {
    var s := Begin(c, nodes, draw);
    forall x | 0 <= x < c.n
      ensures BoxRel(lim, w.boxes[x], w.arrived[x])
    {
      StartBox(c, lim, nodes, draw, w, x);
    }
    forall k, x, y | 0 <= x < c.n && 0 <= y < c.n
      ensures ChanRel(s.net(Chan(k, x, y)), w.boxes[x].queued, w.arrived[x], k, y)
    {
      StartChan(c, lim, nodes, draw, w, k, x, y);
    }
  }

  /** Steps of the round from `s` on that end as the nodes and their queues are. */
  ghost predicate Simulates(c: Config, lim: Csma.Limits, s: Sys, run: seq<Sys>, w: Full)
  {
    run != [] && run[0] == s && AllSteps(c, run) && Rel(c, lim, w, run[|run| - 1])
  }

  /** One clean event is a step of the round, or none. */
  lemma ActSimulates(c: Config, lim: Csma.Limits, w: Full, w': Full, s: Sys) returns (next: Option<Sys>)
    requires Inv(c, s) && Rel(c, lim, w, s) && lim.perNeighbour > 0 && lim.period > 0 && ActsCleanly(c, lim, w, w')
    ensures next.None? ==> Rel(c, lim, w', s)
    ensures next.Some? ==> IsStep(c, s, next.value) && Rel(c, lim, w', next.value)
  {
    var a :| CanAct(c, w, a) && CleanAct(lim, w, a) && w' == Do(c, lim, w, a);
    if a.Local? {
      LocalKeeps(c, lim, w, s, a);
      next := None;
    } else {
      var s' := ArrivalKeeps(c, lim, w, s, a);
      next := Some(s');
    }
  }

  lemma NextState(c: Config, lim: Csma.Limits, w: Full, w': Full, s: Sys, run: seq<Sys>) returns (more: seq<Sys>)
    requires Inv(c, s) && Simulates(c, lim, s, run, w)
    requires lim.perNeighbour > 0 && lim.period > 0 && ActsCleanly(c, lim, w, w')
    ensures Simulates(c, lim, s, more, w')
  {
    var l := |run| - 1;
    InvFrom(c, run, l);
    var next := ActSimulates(c, lim, w, w', run[l]);
    if next.None? {
      more := run;
    } else {
      AppendStep(c, run, next.value);
      more := run + [next.value];
    }
  }

  lemma ActAt(c: Config, lim: Csma.Limits, full: seq<Full>, i: nat)
    requires AllAct(c, lim, full) && 0 < i < |full|
    ensures lim.perNeighbour > 0 && lim.period > 0 && ActsCleanly(c, lim, full[i - 1], full[i])
  {
    assert ActsAt(c, lim, full, i - 1);
  }

  lemma {:induction false} SimulatedFrom(c: Config, lim: Csma.Limits, full: seq<Full>, s: Sys, i: nat) returns (run: seq<Sys>)
    requires AllAct(c, lim, full) && i < |full| && Inv(c, s) && Rel(c, lim, full[0], s)
    ensures Simulates(c, lim, s, run, full[i])
  {
    if i == 0 {
      run := [s];
    } else {
      var before := SimulatedFrom(c, lim, full, s, i - 1);
      ActAt(c, lim, full, i);
      run := NextState(c, lim, full[i - 1], full[i], s, before);
    }
  }

  /** Every run over the nodes' queues in which all hand-overs are clean does what some run of the round does. */
  lemma CleanRunIsRound(c: Config, lim: Csma.Limits, full: seq<Full>, i: nat) returns (run: seq<Sys>)
    requires IsFullRun(c, lim, full) && c.root < |c.nbrs| && c.nbrs[c.root] != [] && i < |full|
    ensures IsRun(c, run) && Rel(c, lim, full[i], run[|run| - 1])
  {
    var nodes, draw: int :| Started(c, lim, nodes, draw, full[0]);
    StartRel(c, lim, nodes, draw, full[0]);
    BeginInv(c, nodes, draw);
    run := SimulatedFrom(c, lim, full, Begin(c, nodes, draw), i);
  }

  /** A queue whose accepted hand-overs are the first entries queued, in order. */
  ghost predicate HandsOver(b: Outbox.Box)
  {
    Outbox.Outs(b.handed) <= b.queued
  }

  /**
   * While hand-overs are clean, messages are not duplicated: a node queues at most one message
   * of each kind for each other node, and CSMA accepts it at most once.
   */
  lemma EntersOnce(c: Config, lim: Csma.Limits, full: seq<Full>, i: nat, k: Kind, u: nat, v: nat)
    requires IsFullRun(c, lim, full) && c.root < |c.nbrs| && c.nbrs[c.root] != [] && i < |full| && u < c.n && v < c.n
    ensures u < |full[i].boxes| && HandsOver(full[i].boxes[u])
    ensures |To(Outbox.Outs(full[i].boxes[u].handed), k, v)| <= |To(full[i].boxes[u].queued, k, v)| <= 1
  {
    var run := CleanRunIsRound(c, lim, full, i);
    var b := full[i].boxes[u];
    assert BoxRel(lim, b, full[i].arrived[u]);
    assert ChanRel(run[|run| - 1].net(Chan(k, u, v)), b.queued, full[i].arrived[u], k, v);
    ToConcat(Outbox.Outs(b.gone), b.entries, k, v);
  }

  /** The entry queued by `u` at position `e` has been handed over and has arrived. */
  ghost predicate HasArrived(w: Full, u: nat, e: nat)
    requires u < |w.boxes| == |w.arrived|
  {
    var b := w.boxes[u];
    e < |b.queued| && e < |b.handed| && b.handed[e].out == b.queued[e] && e in w.arrived[u]
  }

  /** The entry is meant for a node of the network. */
  predicate IsForNode(c: Config, o: Out) { o.dest.Some? && o.dest.value < c.n }

  ghost predicate AllArrived(c: Config, w: Full)
  {
    && |w.boxes| == |w.arrived| == c.n
    && forall u, e :: 0 <= u < c.n && 0 <= e < |w.boxes[u].queued| && IsForNode(c, w.boxes[u].queued[e]) ==> HasArrived(w, u, e)
  }

  lemma {:induction false} ToSource(outs: seq<Out>, k: Kind, v: LinkId) returns (e: nat)
    requires To(outs, k, v) != []
    ensures e < |outs| && IsTo(outs[e], k, v)
  {
    var l := |outs| - 1;
    if IsTo(outs[l], k, v) {
      e := l;
    } else {
      e := ToSource(outs[..l], k, v);
    }
  }

  lemma DeliveredHasArrived(c: Config, lim: Csma.Limits, w: Full, s: Sys, u: nat, e: nat)
    requires Rel(c, lim, w, s) && Quiet(c, s) && u < c.n && e < |w.boxes[u].queued| && IsForNode(c, w.boxes[u].queued[e])
    ensures HasArrived(w, u, e)
  {
    var b := w.boxes[u];
    var k, v := KindOf(b.queued[e].msg), b.queued[e].dest.value;
    assert BoxRel(lim, b, w.arrived[u]) && ChanRel(s.net(Chan(k, u, v)), b.queued, w.arrived[u], k, v);
    assert IsTo(b.queued[e], k, v);
    HandedIsQueued(lim, b, w.arrived[u], e);
  }

  lemma ArrivedIsDelivered(c: Config, lim: Csma.Limits, w: Full, s: Sys, k: Kind, u: nat, v: nat, i: nat)
    requires Rel(c, lim, w, s) && AllArrived(c, w) && u < c.n && v < c.n && i < |s.net(Chan(k, u, v))|
    ensures s.net(Chan(k, u, v))[i].status == Delivered
  {
    var b := w.boxes[u];
    assert ChanRel(s.net(Chan(k, u, v)), b.queued, w.arrived[u], k, v);
    var e := ToSource(b.queued, k, v);
    assert HasArrived(w, u, e);
  }

  lemma QuietIsArrived(c: Config, lim: Csma.Limits, w: Full, s: Sys)
    requires Rel(c, lim, w, s)
    ensures Quiet(c, s) <==> AllArrived(c, w)
  {
    if Quiet(c, s) {
      forall u, e | 0 <= u < c.n && 0 <= e < |w.boxes[u].queued| && IsForNode(c, w.boxes[u].queued[e])
        ensures HasArrived(w, u, e)
      {
        DeliveredHasArrived(c, lim, w, s, u, e);
      }
    }
    if AllArrived(c, w) {
      forall k, u, v, i | 0 <= u < c.n && 0 <= v < c.n && 0 <= i < |s.net(Chan(k, u, v))|
        ensures s.net(Chan(k, u, v))[i].status == Delivered
      {
        ArrivedIsDelivered(c, lim, w, s, k, u, v, i);
      }
    }
  }

  /**
   * Termination detection end to end, through the nodes' queues and CSMA, with loss, delay and
   * reordering: while hand-overs are clean, the root has set has_converged if and only if every
   * message queued for a node has been handed over and has arrived. Then every common node holds
   * 100, and the root what RootAccounts says of the round.
   */
  lemma EndToEndDetection(c: Config, lim: Csma.Limits, full: seq<Full>, i: nat) returns (s: Sys)
    requires IsFullRun(c, lim, full) && ConfigOk(c) && Connected(c) && c.n >= 2 && i < |full|
    ensures |full[i].nodes| == |s.nodes| == |s.hist| == c.n && s.nodes == full[i].nodes
    ensures full[i].nodes[c.root].hasConverged <==> AllArrived(c, full[i])
    ensures full[i].nodes[c.root].hasConverged ==> Finished(c, s) && RootAccounts(c, s)
  {
    RoundTheorems.RootHasNeighbour(c);
    var run := CleanRunIsRound(c, lim, full, i);
    var l := |run| - 1;
    s := run[l];
    RoundTheorems.TerminationDetection(c, run, l);
    RoundTheorems.Termination(c, run, l);
    QuietIsArrived(c, lim, full[i], s);
  }
}
