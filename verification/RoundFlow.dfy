/** The flow each node records towards its neighbours in any round, and what it balances to. */
module RoundFlow {
  import opened Types
  import opened Sums
  import opened HlmacAddr
  import opened NodeModel
  import opened RoundLocal
  import opened Round
  import opened RoundInv
  import opened RoundTree
  import opened RoundSafety
  import opened RoundLoads

  // ---- one node ----

  /**
   * The flow recorded for `a`, where `before` was recorded when the round began: what went to the
   * parent, else what was recorded before, else what was received from `a`.
   */
  function FlowOf(isRoot: bool, sentShare: bool, extraLoad: int, h: Hist, a: LinkId, before: int): int
  {
    if !isRoot && sentShare && a == h.parent then ToInt16(-extraLoad)
    else if before != 0 then before
    else if a in h.shares then h.shares[a]
    else 0
  }

  ghost predicate FlowInv(nbrs: seq<Nbr>, isRoot: bool, sentShare: bool, extraLoad: int, h: Hist, f: seq<int>)
  {
    && (!isRoot ==> h.parent !in h.shares)
    && |f| == |nbrs|
    && forall i :: 0 <= i < |nbrs| ==> nbrs[i].inOut == FlowOf(isRoot, sentShare, extraLoad, h, nbrs[i].addr, f[i])
  }

  ghost predicate NodeFlow(n: Node, h: Hist, f: seq<int>)
  {
    FlowInv(n.nbrs, n.isRoot, n.sentShare, n.extraLoad, h, f)
  }

  /** Sending the Share records the flow to the parent. */
  lemma SharedFlow(n: Node, n': Node, h: Hist, p: Place, f: seq<int>)
    requires PreInv(n, h, p) && NodeFlow(n, h, f) && !n.sentShare
    requires n'.isRoot == n.isRoot && SharedFrom(n, n') && n'.sentShare
    ensures NodeFlow(n', h, f)
  {
  }

  lemma FlowSettles(n: Node, h: Hist, p: Place, f: seq<int>)
    requires PreInv(n, h, p) && NodeFlow(n, h, f)
    ensures NodeFlow(SendIfDone(n).node, h, f)
  {
    var b := SendLoadIfDone(n).node;
    SettleLoad(n, h, p);
    assert NodeFlow(b, h, f);
    FlowAfterShare(b, h, p, f);
  }

  lemma FlowAfterShare(n: Node, h: Hist, p: Place, f: seq<int>)
    requires PreInv(n, h, p) && NodeFlow(n, h, f)
    ensures NodeFlow(SendShareIfDone(n).node, h, f) && NodeFlow(Converge(SendShareIfDone(n).node), h, f)
  {
    if !n.edge && n.hijosShare == 0 && !n.sentShare {
      ShareFrame(n);
      var n' := ShareTimer(n).node.(sentShare := true);
      SharedFlow(n, n', h, p, f);
    }
  }

  lemma FlowAfterEdge(n: Node, h: Hist, p: Place, f: seq<int>)
    requires PreInv(n, h, p) && NodeFlow(n, h, f) && !n.sentShare && n.nbrsFlag == 0
    ensures NodeFlow(BecomeEdge(n).node, h, f)
  {
    EdgeFrame(n);
    SharedFlow(n, BecomeEdge(n).node, h, p, f);
  }

  lemma OfferFlow(m: Node, h': Hist, p: Place, f: seq<int>)
    requires PreInv(m, h', p) && NodeFlow(m, h', f)
    requires m.nbrsFlag == 0 ==> !m.isRoot && m.hijosLoad == 0 && m.hijosShare == 0 && !m.sentLoad && !m.sentShare
    ensures NodeFlow(SendIfDone(BecomeEdge(m).node).node, h', f)
  {
    if m.nbrsFlag == 0 {
      SettleEdge(m, h', p);
      FlowAfterEdge(m, h', p, f);
    }
    FlowSettles(BecomeEdge(m).node, h', p, f);
  }

  lemma StepSetFlow(n: Node, h: Hist, a: LinkId, addr: Addr, draw: int, p: Place, f: seq<int>)
    requires LocalInv(n, h, p) && a !in h.given && addr != [] && NonZero(addr)
    requires CountsOk(HeardSet(h, MyAddr(n.table), a, addr, |p.g|), p)
    requires n.isRoot ==> h.nGiven + 1 < |p.g|
    requires NodeFlow(n, h, f)
    ensures NodeFlow(OnSetHlmac(n, a, addr, p.ts, draw).node, HeardSet(h, MyAddr(n.table), a, addr, |p.g|), f)
  {
    var h' := HeardSet(h, MyAddr(n.table), a, addr, |p.g|);
    LoopIsPrefix(n, h, addr, p);
    NoRoom(n, addr, p.ts);
    if Offered(n, addr, p.ts) {
      assert Offer(n, a, addr, p.ts, draw) == Mark(n, a, false);
      MarkedFlow(n, h, a, addr, p, f);
    } else {
      CountedDown(n, h, a, addr, p);
      assert NodeFlow(CountDown(n), h', f);
      FlowSettles(CountDown(n), h', p, f);
    }
  }

  lemma MarkedFlow(n: Node, h: Hist, a: LinkId, addr: Addr, p: Place, f: seq<int>)
    requires LocalInv(n, h, p) && a !in h.given && addr != [] && NonZero(addr)
    requires CountsOk(HeardSet(h, MyAddr(n.table), a, addr, |p.g|), p)
    requires n.isRoot ==> h.nGiven + 1 < |p.g|
    requires NodeFlow(n, h, f) && InVain(n.isRoot, MyAddr(n.table), p.ts, addr)
    ensures NodeFlow(AfterOffer(Mark(n, a, false)).node, HeardSet(h, MyAddr(n.table), a, addr, |p.g|), f)
  {
    var h', m := HeardSet(h, MyAddr(n.table), a, addr, |p.g|), CountDown(Mark(n, a, false));
    Marked(n, h, a, addr, p);
    assert NodeFlow(m, h', f);
    OfferFlow(m, h', p, f);
  }

  /** The flows recorded in table order. */
  function InOuts(nbrs: seq<Nbr>): (r: seq<int>)
    ensures |r| == |nbrs| && forall i :: 0 <= i < |nbrs| ==> r[i] == nbrs[i].inOut
  {
    seq(|nbrs|, i requires 0 <= i < |nbrs| => nbrs[i].inOut)
  }

  lemma StepJoinFlow(n: Node, a: LinkId, addr: Addr, draw: int, p: Place, f: seq<int>)
    requires PlaceOk(p) && Waiting(n, p) && a in p.g && addr != [] && NonZero(addr) && f == InOuts(n.nbrs)
    ensures NodeFlow(OnSetHlmac(n, a, addr, p.ts, draw).node, FirstHist(a, addr, draw), f)
  {
    var m, h' := CountDown(Offer(n, a, addr, p.ts, draw)), FirstHist(a, addr, draw);
    Takes(n, a, addr, draw, p);
    JoinInv(n, m, a, addr, draw, p);
    assert NodeFlow(m, h', f);
    OfferFlow(m, h', p, f);
  }

  /** A Load leaves flows alone. */
  lemma LoadKeepsFlow(n: Node, a: LinkId, value: int)
    ensures var n' := OnLoad(n, a, value).node;
            && n'.isRoot == n.isRoot && n'.sentShare == n.sentShare && n'.extraLoad == n.extraLoad && |n'.nbrs| == |n.nbrs|
            && forall i :: 0 <= i < |n.nbrs| ==> n'.nbrs[i].addr == n.nbrs[i].addr && n'.nbrs[i].inOut == n.nbrs[i].inOut
  {
  }

  lemma StepLoadFlow(n: Node, h: Hist, a: LinkId, value: int, size: nat, f: seq<int>)
    requires NodeFlow(n, h, f)
    ensures NodeFlow(OnLoad(n, a, value).node, HeardLoad(h, a, value, size), f)
  {
    LoadKeepsFlow(n, a, value);
  }

  /** The new Share is the flow from its sender. */
  lemma FlowRecorded(n: Node, h: Hist, i: nat, a: LinkId, value: int, f: seq<int>)
    requires a !in h.shares && (!n.isRoot ==> a != h.parent)
    requires i < |n.nbrs| && n.nbrs[i].addr == a && (forall j :: 0 <= j < |n.nbrs| && j != i ==> n.nbrs[j].addr != a)
    requires NodeFlow(n, h, f)
    ensures NodeFlow(StoreFlow(n, i, value), HeardShare(h, a, value), f)
  {
  }

  lemma AddedFlow(n: Node, h: Hist, value: int, f: seq<int>)
    requires NodeFlow(n, h, f)
    ensures NodeFlow(AddShare(n, value), h, f)
  {
  }

  /** PreInv does not look at the flow, so the record of the Shares may run ahead of it. */
  lemma AbsorbedFlow(n: Node, h: Hist, a: LinkId, value: int, p: Place, f: seq<int>)
    requires PlaceOk(p) && LocalInv(n, h, p) && a in p.g && a !in h.given && a !in h.shares
    requires h.nShare < |p.g| && h.nOutside <= h.nGiven < |p.g|
    requires NodeFlow(n, h, f)
    ensures NodeFlow(AbsorbShare(n, value).node, h, f)
  {
    ShareAdded(n, h, a, value, p);
    AddedFlow(n, h, value, f);
    AbsorbFlow(AddShare(n, value), h, HeardShare(h, a, value), p, f);
  }

  lemma StepShareFlow(n: Node, h: Hist, a: LinkId, value: int, p: Place, f: seq<int>)
    requires PlaceOk(p) && LocalInv(n, h, p) && a in p.g && a !in h.given && a !in h.shares
    requires h.nShare < |p.g| && h.nOutside <= h.nGiven < |p.g|
    requires NodeFlow(n, h, f)
    ensures NodeFlow(OnShare(n, a, value).node, HeardShare(h, a, value), f)
  {
    var i, r := IndexOf(n.nbrs, a), AbsorbShare(n, value).node;
    ShareAdded(n, h, a, value, p);
    AbsorbedFlow(n, h, a, value, p, f);
    Absorbed(n, h, a, value, p);
    assert forall j :: 0 <= j < |r.nbrs| ==> r.nbrs[j].addr == p.g[j];
    FlowRecorded(r, h, i, a, value, f);
  }

  /** The sends after a Share read the parent's flag only. */
  lemma AbsorbFlow(m: Node, h: Hist, h': Hist, p: Place, f: seq<int>)
    requires PreInv(m, h', p) && NodeFlow(m, h, f) && h'.parent == h.parent && h'.given == h.given
    ensures NodeFlow(SendShareIfDone(m).node, h, f) && NodeFlow(Converge(m), h, f)
  {
    if !m.edge && m.hijosShare == 0 && !m.sentShare {
      ShareFrame(m);
      var m' := ShareTimer(m).node.(sentShare := true);
      SharedFlowFor(m, m', h, h', p, f);
    }
  }

  lemma SharedFlowFor(n: Node, n': Node, h: Hist, h': Hist, p: Place, f: seq<int>)
    requires PreInv(n, h', p) && NodeFlow(n, h, f) && h'.parent == h.parent && h'.given == h.given && !n.sentShare
    requires n'.isRoot == n.isRoot && SharedFrom(n, n') && n'.sentShare
    ensures NodeFlow(n', h, f)
  {
  }

  // ---- the network ----

  ghost predicate FlowOk(c: Config, s: Sys, v: nat, f: seq<seq<int>>)
    requires v < |s.nodes| == |s.hist| == |f|
  {
    if J(c, s, v) then NodeFlow(s.nodes[v], s.hist[v], f[v]) else InOuts(s.nodes[v].nbrs) == f[v]
  }

  ghost predicate AllFlow(c: Config, s: Sys, f: seq<seq<int>>)
    requires |s.nodes| == |s.hist| == c.n
  {
    |f| == c.n && forall v :: 0 <= v < c.n ==> FlowOk(c, s, v, f)
  }

  lemma ReactFlowJoined(c: Config, s: Sys, u: nat, v: nat, m: Msg, draw: int, f: seq<seq<int>>)
    requires |f| == c.n && Inv(c, s) && u < c.n && v < c.n && u != v && u in NbSet(c, v) && J(c, s, u) && J(c, s, v) && FlowOk(c, s, v, f)
    requires Said(c, s, KSet, u, v) && !Heard(c, s, KSet, u, v)
    requires m.SetHlmac? && m.timestamp == c.ts && NonZero(m.prefix + [m.id])
    ensures NodeFlow(React(s.nodes[v], u, m, draw).node, Record(s.nodes[v], s.hist[v], u, m, draw, c.ts), f[v])
  {
    var n, h, p := s.nodes[v], s.hist[v], PlaceAt(c, v);
    var addr, mine := m.prefix + [m.id], MyAddr(n.table);
    assert NodeInv(c, s, v) && ChanInv(c, s, KLoad, u, v) && ChanInv(c, s, KShare, u, v);
    PlaceAtOk(c, v);
    CardSet(h, mine, p.nb, u, addr);
    CardBounds(HeardSet(h, mine, u, addr, |p.g|), mine, p.nb);
    if v == c.root {
      RootUnheard(c, s, u);
    }
    StepSetFlow(n, h, u, addr, draw, p, f[v]);
  }

  lemma ReactFlowWaiting(c: Config, s: Sys, u: nat, v: nat, m: Msg, draw: int, f: seq<seq<int>>)
    requires |f| == c.n && Inv(c, s) && v < c.n && u in NbSet(c, v) && !J(c, s, v) && FlowOk(c, s, v, f)
    requires m.SetHlmac? && m.timestamp == c.ts && NonZero(m.prefix + [m.id])
    ensures NodeFlow(React(s.nodes[v], u, m, draw).node, Record(s.nodes[v], s.hist[v], u, m, draw, c.ts), f[v])
  {
    assert NodeInv(c, s, v);
    PlaceAtOk(c, v);
    StepJoinFlow(s.nodes[v], u, m.prefix + [m.id], draw, PlaceAt(c, v), f[v]);
  }

  lemma ReactFlowUp(c: Config, s: Sys, u: nat, v: nat, m: Msg, draw: int, f: seq<seq<int>>)
    requires |f| == c.n && Inv(c, s) && u < c.n && v < c.n && u in NbSet(c, v) && !m.SetHlmac? && J(c, s, v) && FlowOk(c, s, v, f)
    requires Said(c, s, KindOf(m), u, v) && !Heard(c, s, KindOf(m), u, v)
    ensures NodeFlow(React(s.nodes[v], u, m, draw).node, Record(s.nodes[v], s.hist[v], u, m, draw, c.ts), f[v])
  {
    var n, h, p := s.nodes[v], s.hist[v], PlaceAt(c, v);
    assert NodeInv(c, s, u) && NodeInv(c, s, v) && ChanInv(c, s, KSet, u, v);
    PlaceAtOk(c, v);
    CardBounds(h, MyAddr(n.table), p.nb);
    match m {
      case Load(value) =>
        CardLoad(h, MyAddr(n.table), p.nb, u, value);
        StepLoadFlow(n, h, u, value, |p.g|, f[v]);
      case Share(value) =>
        CardShare(h, MyAddr(n.table), p.nb, u, value);
        StepShareFlow(n, h, u, value, p, f[v]);
    }
  }

  lemma FlowStep(c: Config, s: Sys, s': Sys, f: seq<seq<int>>)
    requires Inv(c, s) && AllFlow(c, s, f) && IsStep(c, s, s')
    ensures AllFlow(c, s', f)
  {
    var e :| Enabled(c, s, e) && s' == Step(c, s, e);
    forall w | 0 <= w < c.n
      ensures FlowOk(c, s', w, f)
    {
      assert FlowOk(c, s, w, f);
      if e.Deliver? && w == e.ch.dst {
        DeliverFlow(c, s, e.ch, e.j, e.draw, f);
      }
    }
  }

  lemma DeliverFlow(c: Config, s: Sys, ch: Chan, j: nat, draw: int, f: seq<seq<int>>)
    requires |f| == c.n && Inv(c, s) && Enabled(c, s, Deliver(ch, j, draw)) && FlowOk(c, s, ch.dst, f)
    ensures FlowOk(c, Step(c, s, Deliver(ch, j, draw)), ch.dst, f)
  {
    var u, v, m := ch.src, ch.dst, s.net(ch)[j].msg;
    UnderWay(c, s, ch, j);
    ReceiverJoined(c, s, ch, j);
    Reacts(c, s, ch, j, draw);
    if ch.kind == KSet {
      GiftNonZero(c, s, u, v, m);
      if J(c, s, v) {
        ReactFlowJoined(c, s, u, v, m, draw, f);
      } else {
        ReactFlowWaiting(c, s, u, v, m, draw, f);
      }
    } else {
      ReactFlowUp(c, s, u, v, m, draw, f);
    }
  }

  /** The flows recorded in a state, by node. */
  function Flows(s: Sys): (f: seq<seq<int>>)
    ensures |f| == |s.nodes| && forall v :: 0 <= v < |f| ==> f[v] == InOuts(s.nodes[v].nbrs)
  {
    seq(|s.nodes|, v requires 0 <= v < |s.nodes| => InOuts(s.nodes[v].nbrs))
  }

  lemma FlowNext(c: Config, run: seq<Sys>, i: nat, f: seq<seq<int>>)
    requires AllSteps(c, run) && i + 1 < |run| && Inv(c, run[i]) && AllFlow(c, run[i], f)
    ensures |run[i + 1].nodes| == |run[i + 1].hist| == c.n && AllFlow(c, run[i + 1], f)
  {
    NextStep(c, run, i);
    FlowStep(c, run[i], run[i + 1], f);
  }

  lemma {:induction false} FlowFrom(c: Config, run: seq<Sys>, i: nat, f: seq<seq<int>>)
    requires AllSteps(c, run) && i < |run| && Inv(c, run[0]) && AllFlow(c, run[0], f)
    ensures Inv(c, run[i]) && AllFlow(c, run[i], f)
  {
    if i > 0 {
      FlowFrom(c, run, i - 1, f);
      InvNext(c, run, i - 1);
      FlowNext(c, run, i - 1, f);
    }
  }

  lemma BeginFlow(c: Config, nodes: seq<Node>, draw: int)
    requires ReadyFor(c, nodes) && c.nbrs[c.root] != []
    ensures var s := Begin(c, nodes, draw); Inv(c, s) && AllFlow(c, s, Flows(s))
  {
    var s := Begin(c, nodes, draw);
    BeginInv(c, nodes, draw);
    forall v | 0 <= v < c.n
      ensures FlowOk(c, s, v, Flows(s))
    {
      assert NodeInv(c, s, v);
    }
  }

  lemma RunFlow(c: Config, run: seq<Sys>, i: nat)
    requires IsRun(c, run) && c.nbrs[c.root] != [] && i < |run|
    ensures Inv(c, run[i]) && AllFlow(c, run[i], Flows(run[0]))
  {
    var nodes, draw := RunStart(c, run);
    BeginFlow(c, nodes, draw);
    FlowFrom(c, run, i, Flows(run[0]));
  }

  /** A round begins with the flows its nodes have recorded. */
  lemma BeginKeepsFlows(c: Config, nodes: seq<Node>, draw: int, v: nat)
    requires ReadyFor(c, nodes) && v < c.n
    ensures |Flows(Begin(c, nodes, draw))| == c.n && Flows(Begin(c, nodes, draw))[v] == InOuts(nodes[v].nbrs)
  {
    assert InOuts(Begin(c, nodes, draw).nodes[v].nbrs) == InOuts(nodes[v].nbrs);
  }

  /** The value of a Share that was heard fits a `short`. */
  lemma HeardShareIsShort(c: Config, s: Sys, u: nat, v: nat)
    requires Inv(c, s) && u < c.n && v < c.n && J(c, s, v) && u in s.hist[v].shares
    ensures -32768 <= s.hist[v].shares[u] <= 32767
  {
    assert ChanInv(c, s, KShare, u, v) && NodeInv(c, s, u);
    assert Heard(c, s, KShare, u, v);
    ShareIsShort(c, s, u);
  }

  lemma FlowIsShort(c: Config, s: Sys, v: nat, k: nat, f: seq<seq<int>>)
    requires Inv(c, s) && AllFlow(c, s, f) && v < c.n && J(c, s, v) && k < |c.nbrs[v]|
    requires k < |f[v]| ==> -32768 <= f[v][k] <= 32767
    ensures k < |s.nodes[v].nbrs| && -32768 <= s.nodes[v].nbrs[k].inOut <= 32767
  {
    var a := c.nbrs[v][k];
    FlowAt(c, s, v, k, f);
    assert TableOk(c, v);
    if a in s.hist[v].shares {
      HeardShareIsShort(c, s, a, v);
    }
  }

  /** Recorded flows fit a `short` throughout a round if they did when it began. */
  lemma FlowsStayShort(c: Config, run: seq<Sys>, i: nat, v: nat, k: nat)
    requires IsRun(c, run) && c.nbrs[c.root] != [] && i < |run| && v < c.n
    requires forall w, l :: 0 <= w < |Flows(run[0])| && 0 <= l < |Flows(run[0])[w]| ==> -32768 <= Flows(run[0])[w][l] <= 32767
    ensures |run[i].nodes| == c.n
    ensures k < |run[i].nodes[v].nbrs| ==> -32768 <= run[i].nodes[v].nbrs[k].inOut <= 32767
  {
    RunFlow(c, run, i);
    if k < |run[i].nodes[v].nbrs| {
      StateStaysShort(c, run[i], v, k, Flows(run[0]));
    }
  }

  lemma StateStaysShort(c: Config, s: Sys, v: nat, k: nat, f: seq<seq<int>>)
    requires Inv(c, s) && AllFlow(c, s, f) && v < c.n && k < |s.nodes[v].nbrs|
    requires k < |f[v]| ==> -32768 <= f[v][k] <= 32767
    ensures -32768 <= s.nodes[v].nbrs[k].inOut <= 32767
  {
    if J(c, s, v) {
      NbrsLength(c, s, v);
      FlowIsShort(c, s, v, k, f);
    } else {
      assert FlowOk(c, s, v, f);
    }
  }

  // ---- balance ----

  /** A vector over the nodes, summed in table order, when it is zero off the table. */
  lemma {:induction false} TableSum(row: seq<int>, g: seq<LinkId>, a: seq<int>)
    requires |a| == |g| && (forall i, j :: 0 <= i < j < |g| ==> g[i] != g[j])
    requires forall i :: 0 <= i < |g| ==> g[i] < |row| && a[i] == row[g[i]]
    requires forall u :: 0 <= u < |row| && u !in g ==> row[u] == 0
    ensures Sum(a) == Sum(row)
    decreases |g|
  {
    if g == [] {
      SumZero(row);
    } else {
      var l := |g| - 1;
      var row' := row[g[l] := 0];
      assert g == g[..l] + [g[l]];
      TableSum(row', g[..l], a[..l]);
      SumUpdate(row, row', g[l]);
    }
  }

  /** What a node that has shared sent and received in the round, by neighbour. */
  function FlowRow(c: Config, s: Sys, v: nat): (r: seq<int>)
    requires |s.nodes| == |s.hist| == c.n && v < c.n
    ensures |r| == c.n
    ensures forall u :: 0 <= u < c.n ==> r[u] == if u == Par(s, v) then ToInt16(-Extra(s, v)) else if u in s.hist[v].shares then s.hist[v].shares[u] else 0
  {
    seq(c.n, u requires 0 <= u < c.n => if u == Par(s, v) then ToInt16(-Extra(s, v)) else if u in s.hist[v].shares then s.hist[v].shares[u] else 0)
  }

  /** The same in table order. */
  function RoundFlows(c: Config, s: Sys, v: nat): (r: seq<int>)
    requires |s.nodes| == |s.hist| == c.n && v < c.n == |c.nbrs|
    ensures |r| == |c.nbrs[v]|
    ensures forall i :: 0 <= i < |r| && c.nbrs[v][i] < c.n ==> r[i] == FlowRow(c, s, v)[c.nbrs[v][i]]
  {
    seq(|c.nbrs[v]|, i requires 0 <= i < |c.nbrs[v]| => if c.nbrs[v][i] < c.n then FlowRow(c, s, v)[c.nbrs[v][i]] else 0)
  }

  /**
   * How far the record of `v` is stale, by table entry: a flow recorded in an earlier round is kept
   * instead of what the neighbour sent in this one, except towards the parent.
   */
  function Stale(c: Config, s: Sys, v: nat, f: seq<seq<int>>): (r: seq<int>)
    requires v < |s.hist| == |c.nbrs| == |f|
    ensures |r| == |c.nbrs[v]|
    ensures forall i :: 0 <= i < |r| ==> r[i] == StaleAt(s.hist[v], c.nbrs[v][i], if i < |f[v]| then f[v][i] else 0)
  {
    seq(|c.nbrs[v]|, i requires 0 <= i < |c.nbrs[v]| => StaleAt(s.hist[v], c.nbrs[v][i], if i < |f[v]| then f[v][i] else 0))
  }

  function StaleAt(h: Hist, a: LinkId, before: int): int
  {
    if before == 0 || a == h.parent then 0
    else before - if a in h.shares then h.shares[a] else 0
  }

  /** The flow recorded at one table entry. */
  lemma FlowAt(c: Config, s: Sys, v: nat, i: nat, f: seq<seq<int>>)
    requires Inv(c, s) && AllFlow(c, s, f) && v < c.n && J(c, s, v) && i < |c.nbrs[v]|
    ensures |s.nodes[v].nbrs| == |c.nbrs[v]| == |f[v]|
    ensures s.nodes[v].nbrs[i].inOut ==
            FlowOf(v == c.root, s.nodes[v].sentShare, Extra(s, v), s.hist[v], c.nbrs[v][i], f[v][i])
  {
    assert NodeInv(c, s, v) && FlowOk(c, s, v, f);
  }

  lemma NbrsLength(c: Config, s: Sys, v: nat)
    requires Inv(c, s) && v < c.n && J(c, s, v)
    ensures |s.nodes[v].nbrs| == |c.nbrs[v]|
  {
    assert NodeInv(c, s, v);
  }

  lemma ParentHasNotShared(c: Config, s: Sys, v: nat)
    requires Inv(c, s) && v < c.n && J(c, s, v) && v != c.root
    ensures Par(s, v) !in s.hist[v].shares && s.hist[v].shares.Keys <= NbSet(c, v)
  {
    assert NodeInv(c, s, v);
  }

  lemma RoundFlowsSum(c: Config, s: Sys, v: nat)
    requires Inv(c, s) && v < c.n && HasShared(c, s, v)
    ensures Sum(RoundFlows(c, s, v)) == Sum(FlowRow(c, s, v))
  {
    assert TableOk(c, v);
    ParentHasNotShared(c, s, v);
    ParentFacts(c, s, v);
    TableSum(FlowRow(c, s, v), c.nbrs[v], RoundFlows(c, s, v));
  }

  /** What is recorded is what the round moved, and what is stale. */
  lemma RecordedFlows(c: Config, s: Sys, v: nat, f: seq<seq<int>>)
    requires Inv(c, s) && AllFlow(c, s, f) && v < c.n && HasShared(c, s, v)
    ensures Sum(InOuts(s.nodes[v].nbrs)) == Sum(RoundFlows(c, s, v)) + Sum(Stale(c, s, v, f))
  {
    var all, now, stale := InOuts(s.nodes[v].nbrs), RoundFlows(c, s, v), Stale(c, s, v, f);
    NbrsLength(c, s, v);
    forall i | 0 <= i < |all|
      ensures all[i] == now[i] + stale[i]
    {
      RecordedAt(c, s, v, i, f);
    }
    SumAdd(now, stale, all);
  }

  lemma RecordedAt(c: Config, s: Sys, v: nat, i: nat, f: seq<seq<int>>)
    requires Inv(c, s) && AllFlow(c, s, f) && v < c.n && HasShared(c, s, v) && i < |c.nbrs[v]|
    ensures |s.nodes[v].nbrs| == |c.nbrs[v]|
    ensures InOuts(s.nodes[v].nbrs)[i] == RoundFlows(c, s, v)[i] + Stale(c, s, v, f)[i]
  {
    assert TableOk(c, v);
    FlowAt(c, s, v, i, f);
  }

  lemma RowSum(c: Config, s: Sys, v: nat)
    requires Inv(c, s) && TotalInv(c, s) && v < c.n && HasShared(c, s, v)
    ensures Sum(FlowRow(c, s, v)) == s.hist[v].total + ToInt16(-Extra(s, v))
  {
    ParentHasNotShared(c, s, v);
    ParentFacts(c, s, v);
    assert TotalOk(c, s, v);
    SumUpdate(ShareRow(s.hist[v].shares, c.n), FlowRow(c, s, v), Par(s, v));
  }

  /** Negating a surplus after it was stored in a `short` is negating it in a `short`. */
  lemma NegatedShare(x: int)
    ensures (x + ToInt16(-ToInt16(x))) % 65536 == 0
    ensures x + ToInt16(-ToInt16(x)) == 0 <==> -32767 <= x <= 32768
  {
    ToInt16Mod(x);
    ToInt16Congruent(-ToInt16(x), -x);
    ToInt16Mod(-x);
  }

  /** Initial load plus recorded flows of `v`, less the 100 it keeps and what is stale. */
  function Imbalance(c: Config, s: Sys, v: nat, f: seq<seq<int>>): int
    requires v < |s.hist| == |s.nodes| == |c.nbrs| == |f|
  {
    s.hist[v].start + Sum(InOuts(s.nodes[v].nbrs)) - 100 - Sum(Stale(c, s, v, f))
  }

  /**
   * At each common node that has sent its Share, in any round: initial load plus recorded flows
   * leaves 100 and what is stale, modulo 2^16 in any network; and exactly so if and only if the surplus
   * lies between -32767 and 32768, as it does up to 328 nodes.
   */
  lemma NodeBalance(c: Config, s: Sys, v: nat, f: seq<seq<int>>)
    requires Inv(c, s) && TotalInv(c, s) && AllFlow(c, s, f) && v < c.n && HasShared(c, s, v)
    ensures Imbalance(c, s, v, f) % 65536 == 0
    ensures Imbalance(c, s, v, f) == 0 <==> -32767 <= NodeSurplus(s, v) <= 32768
  {
    RecordedFlows(c, s, v, f);
    RoundFlowsSum(c, s, v);
    RowSum(c, s, v);
    NodeBooks(c, s, v);
    NegatedShare(NodeSurplus(s, v));
  }

  lemma SmallNodeBalance(c: Config, s: Sys, v: nat)
    requires Inv(c, s) && TotalInv(c, s) && v < c.n && HasShared(c, s, v) && c.n <= 328
    ensures -32700 <= NodeSurplus(s, v) == Extra(s, v) <= 32700
  {
    AllSubtreesSmall(c, s, v);
    SmallSubtreeIsExact(c, s, v);
    SurplusBounds(c, s, v);
    NodeBooks(c, s, v);
  }

  /**
   * The records at the two ends of the tree edge above `v`, where the parent's was `before` when the
   * round began. The child records the negated Share; the parent keeps what it had, and records the
   * Share if that was nothing. They are opposite if and only if the Share is not -32768, whose
   * negation is no `short`, and the parent had recorded nothing or the very same.
   */
  ghost predicate EdgeKept(up: int, down: int, share: int, before: int)
  {
    && up == ToInt16(-share) && down == (if before != 0 then before else share)
    && (-32768 <= before <= 32767 ==> (up == -down <==> share != -32768 && (before == 0 || before == share)))
  }

  lemma EdgeBalance(c: Config, s: Sys, v: nat, i: nat, j: nat, f: seq<seq<int>>)
    requires Inv(c, s) && AllFlow(c, s, f) && Finished(c, s)
    requires v < c.n && v != c.root && i < |c.nbrs[v]| && c.nbrs[v][i] == Par(s, v)
    requires Par(s, v) < c.n && j < |c.nbrs[Par(s, v)]| && c.nbrs[Par(s, v)][j] == v
    ensures i < |s.nodes[v].nbrs| && j < |s.nodes[Par(s, v)].nbrs| == |f[Par(s, v)]|
    ensures EdgeKept(s.nodes[v].nbrs[i].inOut, s.nodes[Par(s, v)].nbrs[j].inOut, Extra(s, v), f[Par(s, v)][j])
  {
    var u := Par(s, v);
    FlowAt(c, s, v, i, f);
    FlowAt(c, s, u, j, f);
    DeliveredShare(c, s, v);
    if u != c.root {
      NotMyChild(c, s, v);
    }
    ShareIsShort(c, s, v);
    assert ToInt16(-Extra(s, v)) == if Extra(s, v) == -32768 then -32768 else -Extra(s, v);
  }

  lemma ShareIsShort(c: Config, s: Sys, v: nat)
    requires Inv(c, s) && v < c.n && HasShared(c, s, v)
    ensures -32768 <= Extra(s, v) <= 32767
  {
    NodeBooks(c, s, v);
  }

  /** A node's parent is not its child. */
  lemma NotMyChild(c: Config, s: Sys, v: nat)
    requires Inv(c, s) && v < c.n && v != c.root && J(c, s, v) && Par(s, v) != c.root
    ensures Par(s, v) < c.n && Par(s, Par(s, v)) != v
  {
    ParentFacts(c, s, v);
    ParentFacts(c, s, Par(s, v));
  }
}
