/** What the Loads carry, and what the parents record of them. */
module RoundReports {
  import opened Types
  import opened HlmacAddr
  import opened NodeModel
  import opened RoundLocal
  import opened Round
  import opened RoundInv
  import opened RoundTree
  import opened RoundSafety

  // ---- one node ----

  /** Every Load among the messages carries `value`. */
  ghost predicate Stated(outs: seq<Out>, value: int)
  {
    forall o :: o in outs && o.msg.Load? ==> o.msg.value == value
  }

  /** A Load that is due will carry what the record says. */
  ghost predicate Due(n: Node, h: Hist)
  {
    !n.isRoot && n.hijosLoad == 0 && !n.sentLoad ==> HeadLoad(n) == h.report
  }

  /** The Loads recorded for the neighbours. */
  ghost predicate SameLoads(a: seq<Nbr>, b: seq<Nbr>)
  {
    |a| == |b| && forall i :: 0 <= i < |a| ==> b[i].addr == a[i].addr && b[i].load == a[i].load
  }

  lemma RootSendsNoLoad(n: Node, h: Hist, p: Place)
    requires Listed(n.nbrs, p.g) && FlagInv(n.nbrs, n.isRoot, MyAddr(n.table), p.ts, h) && n.isRoot
    ensures LoadTimer(n) == []
  {
    ParentIs(n, h, p);
  }

  lemma LoadStates(n: Node, h: Hist, p: Place)
    requires PreInv(n, h, p) && Due(n, h)
    ensures Stated(SendLoadIfDone(n).outs, h.report)
    ensures SendLoadIfDone(n).node == n.(sentLoad := SendLoadIfDone(n).node.sentLoad)
  {
    if n.isRoot {
      RootSendsNoLoad(n, h, p);
    }
  }

  lemma ShareStates(n: Node)
    ensures Stated(ShareTimer(n).outs, 0) && Stated(SendShareIfDone(n).outs, 0) && SameLoads(n.nbrs, SendShareIfDone(n).node.nbrs)
    ensures forall o :: o in SendShareIfDone(n).outs ==> !o.msg.Load?
    ensures forall o :: o in ShareTimer(n).outs ==> !o.msg.Load?
    ensures SameLoads(n.nbrs, ShareTimer(n).node.nbrs)
  {
  }

  lemma DoneStates(n: Node, h: Hist, p: Place)
    requires PreInv(n, h, p) && Due(n, h)
    ensures Stated(SendIfDone(n).outs, h.report) && SameLoads(n.nbrs, SendIfDone(n).node.nbrs)
  {
    var b := SendLoadIfDone(n).node;
    LoadStates(n, h, p);
    ShareStates(b);
    assert Converge(SendShareIfDone(b).node).nbrs == SendShareIfDone(b).node.nbrs;
  }

  /** A leaf sends its Load and has nothing more to send. */
  lemma EdgeStates(n: Node, h: Hist, p: Place)
    requires PreInv(n, h, p) && Due(n, h)
    requires n.nbrsFlag == 0 ==> !n.isRoot && n.hijosLoad == 0 && n.hijosShare == 0 && !n.sentLoad && !n.sentShare
    ensures var a := BecomeEdge(n);
            Stated(a.outs, h.report) && SameLoads(n.nbrs, a.node.nbrs) && PreInv(a.node, h, p) && Due(a.node, h)
  {
    if n.nbrsFlag == 0 {
      SettleEdge(n, h, p);
      ShareStates(n.(edge := true));
      EdgeFrame(n);
    }
  }

  lemma OfferStates(n: Node, h: Hist, p: Place)
    requires PreInv(n, h, p) && Due(n, h)
    requires n.nbrsFlag == 0 ==> !n.isRoot && n.hijosLoad == 0 && n.hijosShare == 0 && !n.sentLoad && !n.sentShare
    ensures var a := BecomeEdge(n);
            Stated(a.outs + SendIfDone(a.node).outs, h.report) && SameLoads(n.nbrs, SendIfDone(a.node).node.nbrs)
  {
    var a := BecomeEdge(n);
    EdgeStates(n, h, p);
    DoneStates(a.node, h, p);
  }

  /** What is due when the last neighbour is heard is what the node held just before. */
  lemma HeldIsDue(n: Node, h: Hist, m: Node, h': Hist, p: Place)
    requires LocalInv(n, h, p) && PreInv(m, h', p) && m.isRoot == n.isRoot && m.sentLoad == n.sentLoad && HeadLoad(m) == HeadLoad(n)
    requires h'.nLoad == h.nLoad + 1 && h'.report == Reported(h, |p.g|)
    ensures Due(m, h')
  {
  }

  lemma StepSetStates(n: Node, h: Hist, a: LinkId, addr: Addr, draw: int, p: Place)
    requires LocalInv(n, h, p) && a !in h.given && addr != [] && NonZero(addr)
    requires CountsOk(HeardSet(h, MyAddr(n.table), a, addr, |p.g|), p)
    requires n.isRoot ==> h.nGiven + 1 < |p.g|
    ensures var r, h' := OnSetHlmac(n, a, addr, p.ts, draw), HeardSet(h, MyAddr(n.table), a, addr, |p.g|);
            Stated(r.outs, h'.report) && SameLoads(n.nbrs, r.node.nbrs)
  {
    var h' := HeardSet(h, MyAddr(n.table), a, addr, |p.g|);
    LoopIsPrefix(n, h, addr, p);
    NoRoom(n, addr, p.ts);
    if Offered(n, addr, p.ts) {
      var m := CountDown(Mark(n, a, false));
      assert Offer(n, a, addr, p.ts, draw) == Mark(n, a, false);
      Marked(n, h, a, addr, p);
      HeldIsDue(n, h, m, h', p);
      OfferStates(m, h', p);
      assert SameLoads(n.nbrs, m.nbrs);
    } else {
      var m := CountDown(n);
      CountedDown(n, h, a, addr, p);
      HeldIsDue(n, h, m, h', p);
      DoneStates(m, h', p);
    }
  }

  lemma StepJoinStates(n: Node, a: LinkId, addr: Addr, draw: int, p: Place)
    requires PlaceOk(p) && Waiting(n, p) && a in p.g && addr != [] && NonZero(addr)
    ensures Stated(OnSetHlmac(n, a, addr, p.ts, draw).outs, draw)
  {
    var m, h' := CountDown(Offer(n, a, addr, p.ts, draw)), FirstHist(a, addr, draw);
    Takes(n, a, addr, draw, p);
    JoinInv(n, m, a, addr, draw, p);
    OfferStates(m, h', p);
    NoLoads(n.nbrs, a, addr, p.ts);
  }

  lemma {:induction false} NoLoads(nbrs: seq<Nbr>, a: LinkId, addr: Addr, ts: nat)
    ensures forall o :: o in SetHlmacs(nbrs, a, addr, ts) ==> !o.msg.Load?
  {
    if nbrs != [] {
      NoLoads(nbrs[..|nbrs| - 1], a, addr, ts);
    }
  }

  lemma StepLoadStates(n: Node, h: Hist, a: LinkId, value: int, p: Place)
    requires LocalInv(n, h, p) && a in p.g && a !in h.given
    requires h.nLoad < |p.g| && h.nOutside <= h.nGiven < |p.g|
    ensures var r, i := OnLoad(n, a, value), IndexOf(n.nbrs, a);
            && Stated(r.outs, HeardLoad(h, a, value, |p.g|).report)
            && i < |n.nbrs| && n.nbrs[i].addr == a && SameLoads(n.nbrs[i := n.nbrs[i].(load := value)], r.node.nbrs)
  {
    var i, h' := IndexOf(n.nbrs, a), HeardLoad(h, a, value, |p.g|);
    LoadStored(n, h, a, value, p);
    var m := StoreLoad(n, i, value);
    IndexIn(n.nbrs, p.g, a);
    HeldIsDue(n, h, m, h', p);
    LoadStates(m, h', p);
  }

  lemma StepShareStates(n: Node, a: LinkId, value: int)
    ensures forall o :: o in OnShare(n, a, value).outs ==> !o.msg.Load?
    ensures SameLoads(n.nbrs, OnShare(n, a, value).node.nbrs)
  {
    ShareStates(AddShare(n, value));
    assert AddShare(n, value).nbrs == n.nbrs;
    var r := AbsorbShare(n, value).node;
    assert SameLoads(n.nbrs, r.nbrs);
    StoreKeepsLoads(r, IndexOf(n.nbrs, a), value);
    StoreKeepsLoads(n, IndexOf(n.nbrs, a), value);
  }

  lemma StoreKeepsLoads(n: Node, i: nat, value: int)
    ensures SameLoads(n.nbrs, StoreFlow(n, i, value).nbrs)
  {
  }

  // ---- the network ----

  /** What `v` has recorded is what it heard. */
  ghost predicate Recorded(nbrs: seq<Nbr>, h: Hist)
  {
    forall i :: 0 <= i < |nbrs| && nbrs[i].addr in h.loads ==> nbrs[i].load == h.loads[nbrs[i].addr]
  }

  /** Loads on their way carry what their sender's record says. */
  ghost predicate TellsReport(cs: seq<Cell>, h: Hist)
  {
    forall i :: 0 <= i < |cs| && cs[i].msg.Load? ==> cs[i].msg.value == h.report
  }

  /** Without Shares nothing is absorbed, and the Load is the start load. */
  ghost predicate Plain(h: Hist, size: nat)
  {
    h.shares == map[] ==> h.total == 0 && (h.nLoad == size ==> h.report == h.start)
  }

  ghost predicate ReportAt(c: Config, s: Sys, v: nat)
    requires v < |s.nodes| == |s.hist| == |c.nbrs|
  {
    J(c, s, v) ==> Recorded(s.nodes[v].nbrs, s.hist[v]) && (v != c.root ==> Plain(s.hist[v], |c.nbrs[v]|))
  }

  ghost predicate ReportTo(c: Config, s: Sys, u: nat, v: nat)
    requires u < |s.nodes| == |s.hist| && v < |s.nodes|
  {
    && TellsReport(s.net(Chan(KLoad, u, v)), s.hist[u])
    && (Heard(c, s, KLoad, u, v) ==> s.hist[v].loads[u] == s.hist[u].report)
  }

  ghost predicate ReportInv(c: Config, s: Sys)
  {
    && |s.nodes| == |s.hist| == c.n == |c.nbrs|
    && (forall v :: 0 <= v < c.n ==> ReportAt(c, s, v))
    && forall u, v :: 0 <= u < c.n && 0 <= v < c.n ==> ReportTo(c, s, u, v)
  }

  /** What a handler leaves behind. */
  ghost predicate Reports(n: Node, h: Hist, n': Node, h': Hist, outs: seq<Out>, size: nat)
  {
    && Stated(outs, h'.report)
    && (h.nLoad == size ==> h'.report == h.report)
    && (Recorded(n.nbrs, h) ==> Recorded(n'.nbrs, h'))
    && (!n.isRoot && Plain(h, size) ==> Plain(h', size))
  }

  lemma SameRecord(a: seq<Nbr>, b: seq<Nbr>, h: Hist, h': Hist)
    requires SameLoads(a, b) && h'.loads == h.loads && Recorded(a, h)
    ensures Recorded(b, h')
  {
  }

  lemma OneRecorded(nbrs: seq<Nbr>, i: nat, after: seq<Nbr>, h: Hist, h': Hist, value: int)
    requires i < |nbrs| && SameLoads(nbrs[i := nbrs[i].(load := value)], after) && h'.loads == h.loads[nbrs[i].addr := value]
    requires Recorded(nbrs, h) && forall j :: 0 <= j < |nbrs| && j != i ==> nbrs[j].addr != nbrs[i].addr
    ensures Recorded(after, h')
  {
  }

  /** Without Shares the last neighbour is not heard by a Share, so nothing has been sent before. */
  lemma PlainSet(h: Hist, mine: Addr, nb: set<LinkId>, a: LinkId, addr: Addr)
    requires CardInv(h, mine, nb) && Plain(h, |nb|)
    ensures Plain(HeardSet(h, mine, a, addr, |nb|), |nb|)
  {
    CardBounds(h, mine, nb);
    assert h.shares == map[] ==> h.given.Keys + h.shares.Keys == h.given.Keys;
  }

  lemma PlainLoad(h: Hist, mine: Addr, nb: set<LinkId>, a: LinkId, value: int)
    requires CardInv(h, mine, nb) && Plain(h, |nb|)
    ensures Plain(HeardLoad(h, a, value, |nb|), |nb|)
  {
    CardBounds(h, mine, nb);
    assert h.shares == map[] ==> h.given.Keys + h.shares.Keys == h.given.Keys;
  }

  lemma ReportSetJoined(c: Config, s: Sys, u: nat, v: nat, m: Msg, draw: int)
    requires Inv(c, s) && u < c.n && v < c.n && u != v && u in NbSet(c, v) && J(c, s, u) && J(c, s, v)
    requires Said(c, s, KSet, u, v) && !Heard(c, s, KSet, u, v)
    requires m.SetHlmac? && m.timestamp == c.ts && NonZero(m.prefix + [m.id])
    ensures var r := React(s.nodes[v], u, m, draw);
            Reports(s.nodes[v], s.hist[v], r.node, Record(s.nodes[v], s.hist[v], u, m, draw, c.ts), r.outs, |c.nbrs[v]|)
  {
    var n, h, p := s.nodes[v], s.hist[v], PlaceAt(c, v);
    var addr, mine := m.prefix + [m.id], MyAddr(n.table);
    assert NodeInv(c, s, v) && ChanInv(c, s, KLoad, u, v) && ChanInv(c, s, KShare, u, v);
    PlaceAtOk(c, v);
    CardSet(h, mine, p.nb, u, addr);
    CardBounds(HeardSet(h, mine, u, addr, |p.g|), mine, p.nb);
    CardBounds(h, mine, p.nb);
    if v == c.root {
      RootUnheard(c, s, u);
    }
    StepSetStates(n, h, u, addr, draw, p);
    if Plain(h, |p.nb|) {
      PlainSet(h, mine, p.nb, u, addr);
    }
    if Recorded(n.nbrs, h) {
      SameRecord(n.nbrs, React(n, u, m, draw).node.nbrs, h, HeardSet(h, mine, u, addr, |p.g|));
    }
  }

  lemma ReportSetWaiting(c: Config, s: Sys, u: nat, v: nat, m: Msg, draw: int)
    requires Inv(c, s) && v < c.n && u in NbSet(c, v) && !J(c, s, v)
    requires m.SetHlmac? && m.timestamp == c.ts && NonZero(m.prefix + [m.id])
    ensures var r, h' := React(s.nodes[v], u, m, draw), Record(s.nodes[v], s.hist[v], u, m, draw, c.ts);
            Stated(r.outs, h'.report) && Recorded(r.node.nbrs, h') && Plain(h', |c.nbrs[v]|)
  {
    assert NodeInv(c, s, v);
    PlaceAtOk(c, v);
    StepJoinStates(s.nodes[v], u, m.prefix + [m.id], draw, PlaceAt(c, v));
  }

  lemma ReportUp(c: Config, s: Sys, u: nat, v: nat, m: Msg, draw: int)
    requires Inv(c, s) && u < c.n && v < c.n && u in NbSet(c, v) && !m.SetHlmac? && J(c, s, v)
    requires Said(c, s, KindOf(m), u, v) && !Heard(c, s, KindOf(m), u, v)
    ensures var r := React(s.nodes[v], u, m, draw);
            Reports(s.nodes[v], s.hist[v], r.node, Record(s.nodes[v], s.hist[v], u, m, draw, c.ts), r.outs, |c.nbrs[v]|)
  {
    assert NodeInv(c, s, u) && ChanInv(c, s, KSet, u, v);
    match m {
      case Load(value) => ReportLoad(c, s, u, v, value);
      case Share(value) => ReportShare(c, s, u, v, value);
    }
  }

  lemma LoadReports(n: Node, h: Hist, u: nat, value: int, p: Place)
    requires PlaceOk(p) && LocalInv(n, h, p) && u in p.nb && u !in h.given && u !in h.loads
    requires h.nLoad < |p.g| && h.nOutside <= h.nGiven < |p.g|
    ensures var r, h' := OnLoad(n, u, value), HeardLoad(h, u, value, |p.g|);
            && Stated(r.outs, h'.report) && (h.nLoad == |p.g| ==> h'.report == h.report)
            && (Recorded(n.nbrs, h) ==> Recorded(r.node.nbrs, h'))
  {
    StepLoadStates(n, h, u, value, p);
    var i := IndexOf(n.nbrs, u);
    if Recorded(n.nbrs, h) {
      forall j | 0 <= j < |n.nbrs| && j != i
        ensures n.nbrs[j].addr != u
      {
        assert n.nbrs[j].addr == p.g[j] && n.nbrs[i].addr == p.g[i];
      }
      OneRecorded(n.nbrs, i, OnLoad(n, u, value).node.nbrs, h, HeardLoad(h, u, value, |p.g|), value);
    }
  }

  lemma ReportLoad(c: Config, s: Sys, u: nat, v: nat, value: int)
    requires Inv(c, s) && u < c.n && v < c.n && u in NbSet(c, v) && J(c, s, v) && u !in s.hist[v].given && u !in s.hist[v].loads
    ensures var n, h := s.nodes[v], s.hist[v];
            var r := OnLoad(n, u, value);
            Reports(n, h, r.node, HeardLoad(h, u, value, |n.nbrs|), r.outs, |c.nbrs[v]|)
  {
    var n, h, p := s.nodes[v], s.hist[v], PlaceAt(c, v);
    assert NodeInv(c, s, v);
    PlaceAtOk(c, v);
    CardLoad(h, MyAddr(n.table), p.nb, u, value);
    CardBounds(h, MyAddr(n.table), p.nb);
    LoadReports(n, h, u, value, p);
    if Plain(h, |p.nb|) {
      PlainLoad(h, MyAddr(n.table), p.nb, u, value);
    }
  }

  lemma ReportShare(c: Config, s: Sys, u: nat, v: nat, value: int)
    requires Inv(c, s) && v < c.n && J(c, s, v)
    ensures var n, h := s.nodes[v], s.hist[v];
            var r := OnShare(n, u, value);
            Reports(n, h, r.node, HeardShare(h, u, value), r.outs, |c.nbrs[v]|)
  {
    var n, h := s.nodes[v], s.hist[v];
    StepShareStates(n, u, value);
    if Recorded(n.nbrs, h) {
      SameRecord(n.nbrs, OnShare(n, u, value).node.nbrs, h, HeardShare(h, u, value));
    }
    assert u in HeardShare(h, u, value).shares;
  }

  /** The queued Loads are those of the channel. */
  lemma {:induction false} ToStated(outs: seq<Out>, value: int, w: LinkId)
    requires Stated(outs, value)
    ensures forall i :: 0 <= i < |To(outs, KLoad, w)| ==> To(outs, KLoad, w)[i] == Load(value)
  {
    if outs != [] {
      ToStated(outs[..|outs| - 1], value, w);
      assert outs[|outs| - 1] in outs;
    }
  }

  /** What the receiver of a message becomes. */
  lemma ReportReacts(c: Config, s: Sys, ch: Chan, j: nat, draw: int)
    requires Inv(c, s) && ReportInv(c, s) && Enabled(c, s, Deliver(ch, j, draw))
    ensures var v, m := ch.dst, s.net(ch)[j].msg;
            var r, h' := React(s.nodes[v], ch.src, m, draw), Record(s.nodes[v], s.hist[v], ch.src, m, draw, c.ts);
            && Stated(r.outs, h'.report) && Recorded(r.node.nbrs, h') && (v != c.root ==> Plain(h', |c.nbrs[v]|))
            && (J(c, s, v) && s.hist[v].nLoad == |c.nbrs[v]| ==> h'.report == s.hist[v].report)
  {
    var u, v, m := ch.src, ch.dst, s.net(ch)[j].msg;
    UnderWay(c, s, ch, j);
    ReceiverJoined(c, s, ch, j);
    PlaceAtOk(c, v);
    assert ReportAt(c, s, v) && NodeInv(c, s, v);
    if ch.kind == KSet {
      GiftNonZero(c, s, u, v, m);
      if J(c, s, v) {
        ReportSetJoined(c, s, u, v, m, draw);
      } else {
        ReportSetWaiting(c, s, u, v, m, draw);
      }
    } else {
      ReportUp(c, s, u, v, m, draw);
    }
  }

  /** A node that has said its Load has heard all it awaited. */
  lemma SaidIsComplete(c: Config, s: Sys, v: nat, w: nat)
    requires Inv(c, s) && v < c.n && w < c.n && Said(c, s, KLoad, v, w)
    ensures J(c, s, v) && s.hist[v].nLoad == |c.nbrs[v]|
  {
    assert NodeInv(c, s, v);
  }

  lemma DeliverReportAt(c: Config, s: Sys, ch: Chan, j: nat, draw: int, v: nat)
    requires Inv(c, s) && ReportInv(c, s) && Enabled(c, s, Deliver(ch, j, draw)) && v < c.n
    ensures ReportAt(c, Step(c, s, Deliver(ch, j, draw)), v)
  {
    assert ReportAt(c, s, v);
    if v == ch.dst {
      ReportReacts(c, s, ch, j, draw);
    }
  }

  /** A channel out of the receiver. */
  lemma ReportFrom(c: Config, s: Sys, ch: Chan, j: nat, draw: int, y: nat)
    requires Inv(c, s) && ReportInv(c, s) && Enabled(c, s, Deliver(ch, j, draw)) && y < c.n && y != ch.dst
    ensures ReportTo(c, Step(c, s, Deliver(ch, j, draw)), ch.dst, y)
  {
    var v, m, s' := ch.dst, s.net(ch)[j].msg, Step(c, s, Deliver(ch, j, draw));
    var r, h' := React(s.nodes[v], ch.src, m, draw), Record(s.nodes[v], s.hist[v], ch.src, m, draw, c.ts);
    UnderWay(c, s, ch, j);
    ReportReacts(c, s, ch, j, draw);
    ToStated(r.outs, h'.report, y);
    AfterDelivery(c, s, ch, j, draw, KLoad, y);
    assert ReportTo(c, s, v, y) && ChanInv(c, s, KLoad, v, y);
    if Said(c, s, KLoad, v, y) {
      SaidIsComplete(c, s, v, y);
    }
  }

  /** A channel into the receiver. */
  lemma ReportInto(c: Config, s: Sys, ch: Chan, j: nat, draw: int, x: nat)
    requires Inv(c, s) && ReportInv(c, s) && Enabled(c, s, Deliver(ch, j, draw)) && x < c.n && x != ch.dst
    ensures ReportTo(c, Step(c, s, Deliver(ch, j, draw)), x, ch.dst)
  {
    var v, m, s' := ch.dst, s.net(ch)[j].msg, Step(c, s, Deliver(ch, j, draw));
    UnderWay(c, s, ch, j);
    ReceiverJoined(c, s, ch, j);
    assert ReportTo(c, s, x, v);
    assert s'.hist[x] == s.hist[x];
    LoadsAfter(s.nodes[v], s.hist[v], ch.src, m, draw, c.ts);
  }

  /** The Loads in the record after one message. */
  lemma LoadsAfter(n: Node, h: Hist, u: nat, m: Msg, draw: int, ts: nat)
    ensures var h' := Record(n, h, u, m, draw, ts);
            h'.loads == if m.Load? then h.loads[u := m.value] else if m.SetHlmac? && !Joined(n.table, ts) then map[] else h.loads
  {
  }

  lemma DeliverReportTo(c: Config, s: Sys, ch: Chan, j: nat, draw: int, u: nat, v: nat)
    requires Inv(c, s) && ReportInv(c, s) && Enabled(c, s, Deliver(ch, j, draw)) && u < c.n && v < c.n
    ensures ReportTo(c, Step(c, s, Deliver(ch, j, draw)), u, v)
  {
    assert ReportTo(c, s, u, v);
    if u == ch.dst && v == ch.dst {
      DeliverInv(c, s, ch, j, draw);
      var s' := Step(c, s, Deliver(ch, j, draw));
      assert ChanInv(c, s', KLoad, v, v);
      NotToSelf(c, s', v, KLoad) by { assert NodeInv(c, s', v); }
    } else if u == ch.dst {
      ReportFrom(c, s, ch, j, draw, v);
    } else if v == ch.dst {
      ReportInto(c, s, ch, j, draw, u);
    }
  }

  lemma ReportStep(c: Config, s: Sys, s': Sys)
    requires Inv(c, s) && ReportInv(c, s) && IsStep(c, s, s')
    ensures ReportInv(c, s')
  {
    var e :| Enabled(c, s, e) && s' == Step(c, s, e);
    forall v | 0 <= v < c.n
      ensures ReportAt(c, s', v)
    {
      assert ReportAt(c, s, v);
      if e.Deliver? {
        DeliverReportAt(c, s, e.ch, e.j, e.draw, v);
      }
    }
    forall u, v | 0 <= u < c.n && 0 <= v < c.n
      ensures ReportTo(c, s', u, v)
    {
      assert ReportTo(c, s, u, v);
      if e.Deliver? {
        DeliverReportTo(c, s, e.ch, e.j, e.draw, u, v);
      }
    }
  }

  lemma ReportNext(c: Config, run: seq<Sys>, i: nat)
    requires AllSteps(c, run) && i + 1 < |run| && Inv(c, run[i]) && ReportInv(c, run[i])
    ensures ReportInv(c, run[i + 1])
  {
    NextStep(c, run, i);
    ReportStep(c, run[i], run[i + 1]);
  }

  lemma {:induction false} ReportsFrom(c: Config, run: seq<Sys>, i: nat)
    requires AllSteps(c, run) && i < |run| && Inv(c, run[0]) && ReportInv(c, run[0])
    ensures Inv(c, run[i]) && ReportInv(c, run[i])
  {
    if i > 0 {
      ReportsFrom(c, run, i - 1);
      InvNext(c, run, i - 1);
      ReportNext(c, run, i - 1);
    }
  }

  lemma BeginReports(c: Config, nodes: seq<Node>, draw: int)
    requires ReadyFor(c, nodes) && c.nbrs[c.root] != []
    ensures Inv(c, Begin(c, nodes, draw)) && ReportInv(c, Begin(c, nodes, draw))
  {
    var s := Begin(c, nodes, draw);
    BeginInv(c, nodes, draw);
    forall u, v | 0 <= u < c.n && 0 <= v < c.n
      ensures ReportTo(c, s, u, v)
    {
      assert ChanInv(c, s, KLoad, u, v) && NodeInv(c, s, u);
    }
    forall v | 0 <= v < c.n
      ensures ReportAt(c, s, v)
    {
      assert NodeInv(c, s, v);
    }
  }

  lemma RunReportInv(c: Config, run: seq<Sys>, i: nat)
    requires IsRun(c, run) && c.nbrs[c.root] != [] && i < |run|
    ensures Inv(c, run[i]) && ReportInv(c, run[i])
  {
    var nodes, draw := RunStart(c, run);
    BeginReports(c, nodes, draw);
    ReportsFrom(c, run, i);
  }

  // ---- results ----

  /** `v` sends its Load in this step. */
  ghost predicate SendsLoad(c: Config, s: Sys, s': Sys, v: nat)
    requires v < |s.nodes| == |s.hist| && v < |s'.nodes| == |s'.hist|
  {
    v != c.root && J(c, s', v) && s'.nodes[v].sentLoad && !(J(c, s, v) && s.nodes[v].sentLoad)
  }

  /** A node hears its last neighbour in the step in which it sends its Load. */
  lemma LastHeard(n: Node, h: Hist, n': Node, h': Hist, p: Place)
    requires LocalInv(n, h, p) && LocalInv(n', h', p) && !n.isRoot && !n'.isRoot && !n.sentLoad && n'.sentLoad
    requires h'.nLoad == h.nLoad || (h'.nLoad == h.nLoad + 1 && h'.report == Reported(h, |p.g|))
    ensures h'.report == if n.sentShare then 100 else h.start + h.total
  {
  }

  lemma RecordShape(n: Node, h: Hist, u: nat, m: Msg, draw: int, ts: nat)
    requires m.SetHlmac? || Joined(n.table, ts)
    ensures var h' := Record(n, h, u, m, draw, ts);
            if Joined(n.table, ts) then h'.nLoad == h.nLoad || (h'.nLoad == h.nLoad + 1 && h'.report == Reported(h, |n.nbrs|))
            else h'.report == h'.start
  {
  }

  lemma SentAfter(c: Config, s: Sys, s': Sys, v: nat)
    requires Inv(c, s) && Inv(c, s') && v < c.n && J(c, s, v) && SendsLoad(c, s, s', v)
    requires s'.hist[v].nLoad == s.hist[v].nLoad
          || (s'.hist[v].nLoad == s.hist[v].nLoad + 1 && s'.hist[v].report == Reported(s.hist[v], |c.nbrs[v]|))
    ensures s'.hist[v].report == if s.nodes[v].sentShare then 100 else s.hist[v].start + s.hist[v].total
  {
    assert NodeInv(c, s, v) && NodeInv(c, s', v);
    LastHeard(s.nodes[v], s.hist[v], s'.nodes[v], s'.hist[v], PlaceAt(c, v));
  }

  lemma TableSize(c: Config, s: Sys, v: nat)
    requires Inv(c, s) && v < c.n
    ensures |s.nodes[v].nbrs| == |c.nbrs[v]|
  {
    assert NodeInv(c, s, v);
  }

  lemma SendingHears(c: Config, s: Sys, ch: Chan, j: nat, draw: int)
    requires Inv(c, s) && Enabled(c, s, Deliver(ch, j, draw)) && SendsLoad(c, s, Step(c, s, Deliver(ch, j, draw)), ch.dst)
    ensures var v, s' := ch.dst, Step(c, s, Deliver(ch, j, draw));
            s'.hist[v].report == if J(c, s, v) then (if s.nodes[v].sentShare then 100 else s.hist[v].start + s.hist[v].total) else s'.hist[v].start
  {
    var v, m, s' := ch.dst, s.net(ch)[j].msg, Step(c, s, Deliver(ch, j, draw));
    ReceiverJoined(c, s, ch, j);
    TableSize(c, s, v);
    RecordShape(s.nodes[v], s.hist[v], ch.src, m, draw, c.ts);
    DeliverInv(c, s, ch, j, draw);
    if J(c, s, v) {
      SentAfter(c, s, s', v);
    }
  }

  /**
   * When a node sends its Load: its record is what it held then, the start load and the Shares so
   * far, or 100 if its Share had gone before; a leaf that sends it at once has drawn it.
   */
  lemma RecordedWhenSent(c: Config, s: Sys, s': Sys, v: nat)
    requires Inv(c, s) && IsStep(c, s, s') && v < c.n && |s'.nodes| == |s'.hist| == c.n && SendsLoad(c, s, s', v)
    ensures s'.hist[v].report == if J(c, s, v) then (if s.nodes[v].sentShare then 100 else s.hist[v].start + s.hist[v].total) else s'.hist[v].start
  {
    var e :| Enabled(c, s, e) && s' == Step(c, s, e);
    assert e.Deliver? && v == e.ch.dst;
    SendingHears(c, s, e.ch, e.j, e.draw);
  }

  /** ... and stays that for the rest of the round. */
  lemma RecordStays(c: Config, s: Sys, s': Sys, v: nat)
    requires Inv(c, s) && ReportInv(c, s) && IsStep(c, s, s') && v < c.n && v != c.root && J(c, s, v) && s.nodes[v].sentLoad
    ensures |s'.nodes| == |s'.hist| == c.n && J(c, s', v) && s'.nodes[v].sentLoad && s'.hist[v].report == s.hist[v].report
  {
    var e :| Enabled(c, s, e) && s' == Step(c, s, e);
    StepInv(c, s, s');
    assert NodeInv(c, s, v) && NodeInv(c, s', v);
    if e.Deliver? && v == e.ch.dst {
      ReportReacts(c, s, e.ch, e.j, e.draw);
      Reacts(c, s, e.ch, e.j, e.draw);
      UnderWay(c, s, e.ch, e.j);
      assert Said(c, s, KLoad, v, Par(s, v));
      assert OutMatches(s.nodes[v], s.hist[v], s'.nodes[v], s'.hist[v], PlaceAt(c, v), React(s.nodes[v], e.ch.src, s.net(e.ch)[e.j].msg, e.draw).outs, KLoad, Par(s, v));
    }
  }

  lemma ShareFromChild(c: Config, s: Sys, u: nat, v: nat)
    requires Inv(c, s) && u < c.n && v < c.n && J(c, s, v) && u in s.hist[v].shares
    ensures ChildOf(c, s, u, v)
  {
    assert ChanInv(c, s, KShare, u, v) && NodeInv(c, s, u);
    assert Heard(c, s, KShare, u, v);
  }

  lemma SharesAreFromNodes(c: Config, s: Sys, v: nat)
    requires Inv(c, s) && v < c.n && J(c, s, v)
    ensures forall u :: u in s.hist[v].shares ==> u < c.n
  {
    assert NodeInv(c, s, v) && TableOk(c, v);
  }

  lemma LeafHasNoShares(c: Config, s: Sys, v: nat)
    requires Inv(c, s) && v < c.n && J(c, s, v) && forall x :: 0 <= x < c.n ==> !ChildOf(c, s, x, v)
    ensures s.hist[v].shares == map[]
  {
    SharesAreFromNodes(c, s, v);
    if u :| u in s.hist[v].shares {
      ShareFromChild(c, s, u, v);
    }
  }

  lemma CompleteWhenSent(c: Config, s: Sys, v: nat)
    requires Inv(c, s) && v < c.n && v != c.root && J(c, s, v) && s.nodes[v].sentLoad
    ensures s.hist[v].nLoad == |c.nbrs[v]|
  {
    assert NodeInv(c, s, v);
  }

  /** A node without children has drawn what its Load carries. */
  lemma LeafReport(c: Config, s: Sys, v: nat)
    requires Inv(c, s) && ReportInv(c, s) && v < c.n && v != c.root && J(c, s, v) && s.nodes[v].sentLoad
    requires forall x :: 0 <= x < c.n ==> !ChildOf(c, s, x, v)
    ensures s.hist[v].report == s.hist[v].start
  {
    LeafHasNoShares(c, s, v);
    CompleteWhenSent(c, s, v);
    assert ReportAt(c, s, v);
  }

  /** The one Load of a node that has sent it carries its record, on the way and at its parent. */
  lemma LoadCarries(c: Config, s: Sys, v: nat)
    requires Inv(c, s) && ReportInv(c, s) && v < c.n && v != c.root && J(c, s, v) && s.nodes[v].sentLoad
    ensures Par(s, v) < c.n
    ensures var cs := s.net(Chan(KLoad, v, Par(s, v)));
            |cs| == 1 && cs[0].msg == Load(s.hist[v].report) && (cs[0].status == Delivered <==> Heard(c, s, KLoad, v, Par(s, v)))
  {
    ParentFacts(c, s, v);
    assert NodeInv(c, s, v) && ChanInv(c, s, KLoad, v, Par(s, v)) && ReportTo(c, s, v, Par(s, v));
  }

  /** Once the parent has heard the Load, its entry for the node has recorded what the Load carries. */
  lemma LoadRecorded(c: Config, s: Sys, v: nat, j: nat)
    requires Inv(c, s) && ReportInv(c, s) && v < c.n && v != c.root && J(c, s, v) && Par(s, v) < c.n && Heard(c, s, KLoad, v, Par(s, v))
    requires j < |c.nbrs[Par(s, v)]| && c.nbrs[Par(s, v)][j] == v
    ensures j < |s.nodes[Par(s, v)].nbrs| && s.nodes[Par(s, v)].nbrs[j].load == s.hist[v].report
  {
    var u := Par(s, v);
    assert ReportAt(c, s, u) && ReportTo(c, s, v, u) && NodeInv(c, s, u);
  }

  /**
   * The Loads of every run. A node that has sent its Load has one on the way to its parent, or
   * delivered there, and it carries the record of the node; once it is in, the parent has it in its table.
   * At a node without children it is the load drawn.
   */
  lemma RunReports(c: Config, run: seq<Sys>, i: nat, v: nat)
    requires IsRun(c, run) && ConfigOk(c) && c.nbrs[c.root] != [] && i < |run| && v < c.n && v != c.root
    ensures |run[i].nodes| == |run[i].hist| == c.n
    ensures var s := run[i];
            J(c, s, v) && s.nodes[v].sentLoad ==>
              && Par(s, v) < c.n && |s.net(Chan(KLoad, v, Par(s, v)))| == 1
              && s.net(Chan(KLoad, v, Par(s, v)))[0].msg == Load(s.hist[v].report)
              && ((forall x :: 0 <= x < c.n ==> !ChildOf(c, s, x, v)) ==> s.hist[v].report == s.hist[v].start)
              && (Heard(c, s, KLoad, v, Par(s, v)) ==>
                   forall j :: 0 <= j < |c.nbrs[Par(s, v)]| && c.nbrs[Par(s, v)][j] == v ==>
                     j < |s.nodes[Par(s, v)].nbrs| && s.nodes[Par(s, v)].nbrs[j].load == s.hist[v].report)
  {
    RunReportInv(c, run, i);
    var s := run[i];
    if J(c, s, v) && s.nodes[v].sentLoad {
      LoadCarries(c, s, v);
      if forall x :: 0 <= x < c.n ==> !ChildOf(c, s, x, v) {
        LeafReport(c, s, v);
      }
      if Heard(c, s, KLoad, v, Par(s, v)) {
        forall j | 0 <= j < |c.nbrs[Par(s, v)]| && c.nbrs[Par(s, v)][j] == v
          ensures j < |s.nodes[Par(s, v)].nbrs| && s.nodes[Par(s, v)].nbrs[j].load == s.hist[v].report
        {
          LoadRecorded(c, s, v, j);
        }
      }
    }
  }

  /** In a finished round every parent has recorded what its children's Loads carry. */
  lemma FinishedReports(c: Config, s: Sys, v: nat, j: nat)
    requires Inv(c, s) && ReportInv(c, s) && Finished(c, s) && v < c.n && v != c.root
    requires Par(s, v) < c.n && j < |c.nbrs[Par(s, v)]| && c.nbrs[Par(s, v)][j] == v
    ensures j < |s.nodes[Par(s, v)].nbrs| && s.nodes[Par(s, v)].nbrs[j].load == s.hist[v].report
  {
    LoadCarries(c, s, v);
    assert s.net(Chan(KLoad, v, Par(s, v)))[0].status == Delivered;
    LoadRecorded(c, s, v, j);
  }

  /** So once the root has converged every parent has recorded every Load. */
  lemma ConvergedReports(c: Config, run: seq<Sys>, i: nat, v: nat, j: nat)
    requires IsRun(c, run) && ConfigOk(c) && Connected(c) && c.nbrs[c.root] != [] && i < |run| && v < c.n && v != c.root
    requires c.root < |run[i].nodes| && run[i].nodes[c.root].hasConverged
    requires v < |run[i].hist| && Par(run[i], v) < c.n && j < |c.nbrs[Par(run[i], v)]| && c.nbrs[Par(run[i], v)][j] == v
    ensures Par(run[i], v) < |run[i].nodes| && j < |run[i].nodes[Par(run[i], v)].nbrs|
    ensures run[i].nodes[Par(run[i], v)].nbrs[j].load == run[i].hist[v].report
  {
    RunReportInv(c, run, i);
    ConvergedIsFinished(c, run[i]);
    FinishedReports(c, run[i], v, j);
  }
}
