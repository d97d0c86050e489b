/**
 * One node during one round: what holds of its state in terms of the messages of the round
 * it has processed, and that every handler keeps it.
 */
module RoundLocal {
  import opened Types
  import opened HlmacAddr
  import opened HlmacTable
  import opened NodeModel

  /**
   * What a node has processed in the round: addresses given to it, Loads, Shares and their
   * total, who its parent is, the load it started with, and what it held when the last neighbour it
   * awaited a Load from was heard. The last four fields count
   * neighbours: heard by SetHLMAC or Load, heard by SetHLMAC or Share, heard by SetHLMAC,
   * and heard by an address that does not run through this node.
   */
  datatype Hist = Hist(
    given: map<LinkId, Addr>,
    loads: map<LinkId, int>,
    shares: map<LinkId, int>,
    total: int,
    parent: LinkId,
    start: int,
    report: int,
    nLoad: nat,
    nShare: nat,
    nGiven: nat,
    nOutside: nat)

  /** A node's place in the network: its neighbours in table order, as a set, and the round's timestamp. */
  datatype Place = Place(g: seq<LinkId>, nb: set<LinkId>, ts: nat)

  ghost predicate PlaceOk(p: Place)
  {
    && |p.nb| == |p.g| <= 255
    && (forall i, j :: 0 <= i < j < |p.g| ==> p.g[i] != p.g[j])
    && (forall i :: 0 <= i < |p.g| ==> p.g[i] in p.nb)
    && (forall a :: a in p.nb ==> exists i :: 0 <= i < |p.g| && p.g[i] == a)
  }

  /** The neighbour table lists `g` with ids 1, 2, ... */
  ghost predicate Listed(nbrs: seq<Nbr>, g: seq<LinkId>)
  {
    && |nbrs| == |g| <= 255
    && forall i :: 0 <= i < |g| ==> nbrs[i].addr == g[i] && nbrs[i].id == i + 1
  }

  /** The table holds an address of this round and no other. */
  predicate Joined(table: seq<TableEntry>, ts: nat)
  {
    |table| == 1 && table[0].timestamp == ts
  }

  function MyAddr(table: seq<TableEntry>): Addr
  {
    if table == [] then [] else table[0].address
  }

  /** Neighbours that gave an address which does not run through this node. */
  function Outside(h: Hist, mine: Addr): set<LinkId>
  {
    set a | a in h.given && !ProperPrefix(mine, h.given[a])
  }

  /** The counts are right. */
  ghost predicate CardInv(h: Hist, mine: Addr, nb: set<LinkId>)
  {
    && h.given.Keys <= nb && h.loads.Keys <= nb && h.shares.Keys <= nb
    && h.given.Keys !! h.loads.Keys && h.given.Keys !! h.shares.Keys
    && h.nLoad == |h.given.Keys + h.loads.Keys|
    && h.nShare == |h.given.Keys + h.shares.Keys|
    && h.nGiven == |h.given.Keys|
    && h.nOutside == |Outside(h, mine)|
  }

  ghost predicate GivenInv(h: Hist)
  {
    forall a :: a in h.given ==> h.given[a] != [] && NonZero(h.given[a])
  }

  /** The address is [1] at the root and the parent's gift elsewhere. */
  ghost predicate AddrInv(table: seq<TableEntry>, isRoot: bool, lastTimestamp: nat, h: Hist, ts: nat)
  {
    && Joined(table, ts) && MyAddr(table) != [] && NonZero(MyAddr(table))
    && (if isRoot then MyAddr(table) == [1] && lastTimestamp == 0
        else lastTimestamp == ts && h.parent in h.given && h.given[h.parent] == MyAddr(table))
  }

  /**
   * An address given to a joined node is offered to its full table unless it runs through the
   * node; at the root, whose last_timestamp stays 0, it is offered in any later round.
   */
  predicate InVain(isRoot: bool, mine: Addr, ts: nat, addr: Addr)
  {
    (isRoot && ts > 0) || !ProperPrefix(mine, addr)
  }

  /** The flag of neighbour `a`: 1 for the parent, -1 for who gave an address in vain, 0 for the others. */
  function FlagOf(isRoot: bool, mine: Addr, ts: nat, h: Hist, a: LinkId): int
  {
    if !isRoot && a == h.parent then 1
    else if a in h.given && InVain(isRoot, mine, ts, h.given[a]) then -1
    else 0
  }

  ghost predicate FlagInv(nbrs: seq<Nbr>, isRoot: bool, mine: Addr, ts: nat, h: Hist)
  {
    forall i :: 0 <= i < |nbrs| ==> nbrs[i].flag == FlagOf(isRoot, mine, ts, h, nbrs[i].addr)
  }

  ghost predicate LoadInv(head: int, extraLoad: int, isRoot: bool, sentShare: bool, h: Hist)
  {
    if isRoot || !sentShare then head == h.start + h.total
    else head == 100 && extraLoad == ToInt16(h.start + h.total - 100)
  }

  /**
   * Holds between the counting of a message and the sends that follow it: each counter is
   * the number of neighbours not heard from.
   */
  ghost predicate PreInv(n: Node, h: Hist, p: Place)
  {
    && Listed(n.nbrs, p.g) && n.maxHlmac == 1 && n.nodeList != []
    && (if n.isRoot then n.rootTimestamp == p.ts else h.parent in p.g)
    && AddrInv(n.table, n.isRoot, n.lastTimestamp, h, p.ts)
    && GivenInv(h)
    && n.hijosLoad == |p.g| - h.nLoad && n.hijosShare == |p.g| - h.nShare
    && FlagInv(n.nbrs, n.isRoot, MyAddr(n.table), p.ts, h)
    && (if n.isRoot then n.nbrsFlag >= |p.g| - h.nGiven else n.nbrsFlag == |p.g| - h.nOutside)
    && LoadInv(HeadLoad(n), n.extraLoad, n.isRoot, n.sentShare, h)
    && (n.edge ==> !n.isRoot && n.nbrsFlag == 0 && n.sentLoad && n.sentShare)
    && (!n.isRoot ==> (n.sentLoad ==> n.hijosLoad == 0) && (n.sentShare ==> n.hijosShare == 0))
    && (n.hasConverged && n.isRoot ==> n.hijosLoad == 0 && n.hijosShare == 0)
  }

  /** Holds between events: what is due has been sent. */
  ghost predicate LocalInv(n: Node, h: Hist, p: Place)
  {
    && PreInv(n, h, p)
    && (!n.isRoot ==> (n.sentLoad <==> n.hijosLoad == 0) && (n.sentShare <==> n.hijosShare == 0) && (n.edge <==> n.nbrsFlag == 0))
    && (n.isRoot ==> (n.hasConverged <==> n.hijosLoad == 0 && n.hijosShare == 0))
  }

  // ---- what a node has said to a neighbour ----

  datatype Kind = KSet | KLoad | KShare

  function KindOf(m: Msg): Kind
  {
    match m case SetHlmac(_, _, _) => KSet case Load(_) => KLoad case Share(_) => KShare
  }

  /** The messages of one kind queued for `w`. */
  function To(outs: seq<Out>, k: Kind, w: LinkId): seq<Msg>
  {
    if outs == [] then []
    else
      var l := |outs| - 1;
      To(outs[..l], k, w) + if outs[l].dest == Some(w) && KindOf(outs[l].msg) == k then [outs[l].msg] else []
  }

  lemma {:induction false} ToConcat(a: seq<Out>, b: seq<Out>, k: Kind, w: LinkId)
    ensures To(a + b, k, w) == To(a, k, w) + To(b, k, w)
  {
    if b == [] {
      assert a + b == a;
    } else {
      var l := |b| - 1;
      ToConcat(a, b[..l], k, w);
      assert (a + b)[..|a + b| - 1] == a + b[..l];
    }
  }

  lemma ToOne(o: Out, k: Kind, w: LinkId)
    ensures To([o], k, w) == if o.dest == Some(w) && KindOf(o.msg) == k then [o.msg] else []
  {
    assert [o][..0] == [];
  }

  /** Whether a node in this state has sent a message of kind `k` to `w`. */
  predicate Says(n: Node, h: Hist, p: Place, k: Kind, w: LinkId)
  {
    && Joined(n.table, p.ts)
    && match k
       case KSet => w in p.nb && (n.isRoot || h.parent != w)
       case KLoad => !n.isRoot && h.parent == w && n.sentLoad
       case KShare => !n.isRoot && h.parent == w && n.sentShare
  }

  /** The id `w` has in a table listing `g`. */
  function IdIn(g: seq<LinkId>, w: LinkId): (id: nat)
    ensures 1 <= id <= |g| + 1
    ensures 1 <= id <= |g| ==> g[id - 1] == w
  {
    if g == [] then 1 else if g[0] == w then 1 else 1 + IdIn(g[1..], w)
  }

  lemma {:induction false} IdInUnique(g: seq<LinkId>, i: nat)
    requires i < |g| && forall j :: 0 <= j < i ==> g[j] != g[i]
    ensures IdIn(g, g[i]) == i + 1
    decreases i
  {
    if i > 0 {
      IdInUnique(g[1..], i - 1);
    }
  }

  /** What that message carries; the value of a Load is left open. */
  ghost predicate Carries(m: Msg, n: Node, p: Place, k: Kind, w: LinkId)
  {
    match k
    case KSet => IdIn(p.g, w) < 256 && m == SetHlmac(p.ts, MyAddr(n.table), IdIn(p.g, w))
    case KLoad => m.Load?
    case KShare => m == Share(n.extraLoad)
  }

  /** What was said keeps its meaning. */
  ghost predicate SameWord(n: Node, n': Node, k: Kind)
  {
    && (k == KSet ==> MyAddr(n'.table) == MyAddr(n.table))
    && (k == KShare ==> n'.extraLoad == n.extraLoad)
  }

  /** The queued messages of kind `k` for `w` are exactly the one newly said. */
  ghost predicate OutMatches(n: Node, h: Hist, n': Node, h': Hist, p: Place, outs: seq<Out>, k: Kind, w: LinkId)
  {
    && (Says(n, h, p, k, w) ==> Says(n', h', p, k, w) && SameWord(n, n', k))
    && if !Says(n, h, p, k, w) && Says(n', h', p, k, w) then
         |To(outs, k, w)| == 1 && Carries(To(outs, k, w)[0], n', p, k, w)
       else To(outs, k, w) == []
  }

  ghost predicate OutsMatch(n: Node, h: Hist, n': Node, h': Hist, p: Place, outs: seq<Out>)
  {
    forall k: Kind, w: LinkId :: OutMatches(n, h, n', h', p, outs, k, w)
  }

  lemma OutsMatchTrans(n: Node, h: Hist, n1: Node, h1: Hist, n2: Node, h2: Hist, p: Place, o1: seq<Out>, o2: seq<Out>)
    requires OutsMatch(n, h, n1, h1, p, o1)
    requires OutsMatch(n1, h1, n2, h2, p, o2)
    ensures OutsMatch(n, h, n2, h2, p, o1 + o2)
  {
    forall k: Kind, w: LinkId
      ensures OutMatches(n, h, n2, h2, p, o1 + o2, k, w)
    {
      assert OutMatches(n, h, n1, h1, p, o1, k, w) && OutMatches(n1, h1, n2, h2, p, o2, k, w);
      ToConcat(o1, o2, k, w);
    }
  }

  lemma SaidNothing(n: Node, h: Hist, n': Node, h': Hist, p: Place)
    requires n'.table == n.table && n'.isRoot == n.isRoot && h'.parent == h.parent
    requires n'.sentLoad == n.sentLoad && n'.sentShare == n.sentShare && n'.extraLoad == n.extraLoad
    ensures OutsMatch(n, h, n', h', p, [])
  {
  }

  // ---- the sends ----

  /** The parent found by the scan of the flags. */
  lemma ParentIs(n: Node, h: Hist, p: Place)
    requires Listed(n.nbrs, p.g) && FlagInv(n.nbrs, n.isRoot, MyAddr(n.table), p.ts, h)
    requires !n.isRoot ==> h.parent in p.g
    ensures Parent(n.nbrs) == if n.isRoot then None else Some(h.parent)
  {
    if !n.isRoot {
      var i :| 0 <= i < |p.g| && p.g[i] == h.parent;
      assert n.nbrs[i].flag == 1;
    }
  }

  lemma LoadSaid(n: Node, h: Hist, p: Place, value: int)
    requires Joined(n.table, p.ts) && !n.sentLoad
    ensures OutsMatch(n, h, n.(sentLoad := true), h, p, if n.isRoot then [] else [Out(Some(h.parent), Load(value))])
  {
    var n', o := n.(sentLoad := true), Out(Some(h.parent), Load(value));
    var outs := if n.isRoot then [] else [o];
    forall k: Kind, w: LinkId
      ensures OutMatches(n, h, n', h, p, outs, k, w)
    {
      ToOne(o, k, w);
    }
  }

  lemma SettleLoad(n: Node, h: Hist, p: Place)
    requires PreInv(n, h, p)
    ensures var r := SendLoadIfDone(n);
            && PreInv(r.node, h, p) && OutsMatch(n, h, r.node, h, p, r.outs)
            && r.node == n.(sentLoad := n.sentLoad || (!n.edge && n.hijosLoad == 0))
  {
    if !n.edge && n.hijosLoad == 0 && !n.sentLoad {
      ParentIs(n, h, p);
      LoadSaid(n, h, p, HeadLoad(n));
    } else {
      SaidNothing(n, h, n, h, p);
    }
  }

  lemma FlowKeeps(nbrs: seq<Nbr>, flow: int, isRoot: bool, mine: Addr, ts: nat, h: Hist, g: seq<LinkId>)
    requires Listed(nbrs, g) && FlagInv(nbrs, isRoot, mine, ts, h)
    ensures Listed(SetParentFlow(nbrs, flow), g) && FlagInv(SetParentFlow(nbrs, flow), isRoot, mine, ts, h)
  {
  }

  /** The fields iotorii_handle_share_upstream_timer leaves alone. */
  ghost predicate SameButShare(n: Node, n': Node)
  {
    && n'.isRoot == n.isRoot && n'.maxHlmac == n.maxHlmac && n'.table == n.table
    && n'.lastTimestamp == n.lastTimestamp && n'.hijosLoad == n.hijosLoad && n'.hijosShare == n.hijosShare
    && n'.nbrsFlag == n.nbrsFlag && n'.edge == n.edge
    && n'.hasConverged == n.hasConverged && n'.rootTimestamp == n.rootTimestamp
  }

  /** ... and what it does with the rest. */
  ghost predicate SharedFrom(n: Node, n': Node)
  {
    && n'.extraLoad == ToInt16(HeadLoad(n) - 100) && n'.nodeList != []
    && n'.nbrs == SetParentFlow(n.nbrs, ToInt16(-n'.extraLoad))
    && HeadLoad(n') == if n.isRoot then HeadLoad(n) else 100
  }

  lemma ShareFrame(n: Node)
    requires n.nodeList != []
    ensures var s := ShareTimer(n);
            && SameButShare(n, s.node) && s.node.sentShare == n.sentShare && s.node.sentLoad == n.sentLoad
            && SharedFrom(n, s.node)
            && s.outs == [Out(Parent(n.nbrs), Share(s.node.extraLoad))]
  {
  }

  /** The node after its Share: 100 kept, the rest sent. */
  lemma ShareSent(n: Node, n': Node, h: Hist, p: Place)
    requires PreInv(n, h, p) && n.hijosShare == 0 && !n.sentShare
    requires SameButShare(n, n') && SharedFrom(n, n') && n'.sentShare && n'.sentLoad == n.sentLoad
    ensures PreInv(n', h, p)
  {
    FlowKeeps(n.nbrs, ToInt16(-n'.extraLoad), n.isRoot, MyAddr(n.table), p.ts, h, p.g);
  }

  lemma ShareSaid(n: Node, h: Hist, n': Node, p: Place)
    requires Joined(n.table, p.ts) && !n.sentShare
    requires n'.table == n.table && n'.isRoot == n.isRoot && n'.sentLoad == n.sentLoad && n'.sentShare
    ensures OutsMatch(n, h, n', h, p, [Out(if n.isRoot then None else Some(h.parent), Share(n'.extraLoad))])
  {
    var o := Out(if n.isRoot then None else Some(h.parent), Share(n'.extraLoad));
    forall k: Kind, w: LinkId
      ensures OutMatches(n, h, n', h, p, [o], k, w)
    {
      ToOne(o, k, w);
    }
  }

  lemma SettleShare(n: Node, h: Hist, p: Place)
    requires PreInv(n, h, p)
    ensures var r := SendShareIfDone(n);
            && PreInv(r.node, h, p) && OutsMatch(n, h, r.node, h, p, r.outs)
            && r.node.sentShare == (n.sentShare || (!n.edge && n.hijosShare == 0))
            && SameButShare(n, r.node) && r.node.sentLoad == n.sentLoad
  {
    if !n.edge && n.hijosShare == 0 && !n.sentShare {
      ParentIs(n, h, p);
      ShareFrame(n);
      var s := ShareTimer(n);
      var n' := s.node.(sentShare := true);
      ShareSent(n, n', h, p);
      ShareSaid(n, h, n', p);
    } else {
      SaidNothing(n, h, n, h, p);
    }
  }

  lemma ConvergeKeeps(n: Node, h: Hist, p: Place)
    requires PreInv(n, h, p)
    ensures var d := Converge(n);
            && PreInv(d, h, p) && OutsMatch(n, h, d, h, p, [])
            && d == n.(hasConverged := d.hasConverged)
            && (n.isRoot ==> (d.hasConverged <==> n.hijosLoad == 0 && n.hijosShare == 0))
  {
    SaidNothing(n, h, Converge(n), h, p);
  }

  /** Once everything due is sent, the node is settled. */
  lemma SettleDone(n: Node, h: Hist, p: Place)
    requires PreInv(n, h, p)
    requires n.isRoot || n.edge || n.nbrsFlag != 0
    ensures var r := SendIfDone(n);
            LocalInv(r.node, h, p) && OutsMatch(n, h, r.node, h, p, r.outs)
  {
    var b := SendLoadIfDone(n);
    var c := SendShareIfDone(b.node);
    SettleLoad(n, h, p);
    SettleShare(b.node, h, p);
    OutsMatchTrans(n, h, b.node, h, c.node, h, p, b.outs, c.outs);
    ConvergeKeeps(c.node, h, p);
    OutsMatchTrans(n, h, c.node, h, Converge(c.node), h, p, b.outs + c.outs, []);
    assert b.outs + c.outs + [] == b.outs + c.outs;
  }

  /** A leaf's two messages. */
  lemma EdgeSent(n: Node, n': Node, h: Hist, p: Place)
    requires PreInv(n, h, p) && !n.isRoot && n.nbrsFlag == 0 && n.hijosLoad == 0 && n.hijosShare == 0
    requires !n.sentLoad && !n.sentShare
    requires SameButShare(n.(edge := true), n') && SharedFrom(n, n') && n'.sentShare && n'.sentLoad
    ensures PreInv(n', h, p)
  {
    FlowKeeps(n.nbrs, ToInt16(-n'.extraLoad), n.isRoot, MyAddr(n.table), p.ts, h, p.g);
  }

  lemma EdgeFrame(n: Node)
    requires n.nodeList != []
    ensures var r := SendBoth(n.(edge := true));
            && SameButShare(n.(edge := true), r.node) && SharedFrom(n, r.node) && r.node.sentShare && r.node.sentLoad
            && r.outs == LoadTimer(n) + [Out(Parent(n.nbrs), Share(r.node.extraLoad))]
  {
    ShareFrame(n.(edge := true));
  }

  lemma SettleEdge(n: Node, h: Hist, p: Place)
    requires PreInv(n, h, p) && !n.isRoot && n.nbrsFlag == 0 && n.hijosLoad == 0 && n.hijosShare == 0
    requires !n.sentLoad && !n.sentShare
    ensures var r := BecomeEdge(n);
            && PreInv(r.node, h, p) && OutsMatch(n, h, r.node, h, p, r.outs)
            && r.node.edge && r.node.isRoot == n.isRoot
  {
    var r := BecomeEdge(n);
    EdgeFrame(n);
    EdgeSent(n, r.node, h, p);
    ParentIs(n, h, p);
    var m := n.(sentLoad := true);
    LoadSaid(n, h, p, HeadLoad(n));
    ShareSaid(m, h, r.node, p);
    OutsMatchTrans(n, h, m, h, r.node, h, p, LoadTimer(n), [Out(Some(h.parent), Share(r.node.extraLoad))]);
  }

  // ---- a SetHLMAC at a node that has joined ----

  /** What a node holds: 100 once its Share has gone, its start load and the Shares so far before. */
  function Held(h: Hist, size: nat): int
  {
    if h.nShare == size then 100 else h.start + h.total
  }

  /** The record of the load held as the last of `size` neighbours is heard. */
  function Reported(h: Hist, size: nat): int
  {
    if h.nLoad + 1 == size then Held(h, size) else h.report
  }

  function HeardSet(h: Hist, mine: Addr, a: LinkId, addr: Addr, size: nat): Hist
  {
    h.(given := h.given[a := addr], report := Reported(h, size), nLoad := h.nLoad + 1, nShare := h.nShare + 1, nGiven := h.nGiven + 1,
       nOutside := if ProperPrefix(mine, addr) then h.nOutside else h.nOutside + 1)
  }

  /** The counts in their natural order. */
  ghost predicate CountsOk(h: Hist, p: Place)
  {
    h.nOutside <= h.nGiven <= h.nLoad <= |p.g| && h.nGiven <= h.nShare <= |p.g|
  }

  lemma CountedDown(n: Node, h: Hist, a: LinkId, addr: Addr, p: Place)
    requires LocalInv(n, h, p) && a !in h.given && addr != [] && NonZero(addr)
    requires CountsOk(HeardSet(h, MyAddr(n.table), a, addr, |p.g|), p)
    requires !InVain(n.isRoot, MyAddr(n.table), p.ts, addr)
    ensures PreInv(CountDown(n), HeardSet(h, MyAddr(n.table), a, addr, |p.g|), p)
  {
  }

  lemma MarkKeeps(nbrs: seq<Nbr>, isRoot: bool, ts: nat, h: Hist, mine: Addr, a: LinkId, addr: Addr, g: seq<LinkId>)
    requires Listed(nbrs, g) && FlagInv(nbrs, isRoot, mine, ts, h) && (isRoot || a != h.parent) && InVain(isRoot, mine, ts, addr)
    ensures Listed(SetFlag(nbrs, a, -1), g) && FlagInv(SetFlag(nbrs, a, -1), isRoot, mine, ts, HeardSet(h, mine, a, addr, |g|))
  {
  }

  lemma Marked(n: Node, h: Hist, a: LinkId, addr: Addr, p: Place)
    requires LocalInv(n, h, p) && a !in h.given && addr != [] && NonZero(addr)
    requires CountsOk(HeardSet(h, MyAddr(n.table), a, addr, |p.g|), p)
    requires InVain(n.isRoot, MyAddr(n.table), p.ts, addr)
    ensures PreInv(CountDown(Mark(n, a, false)), HeardSet(h, MyAddr(n.table), a, addr, |p.g|), p)
  {
    MarkKeeps(n.nbrs, n.isRoot, p.ts, h, MyAddr(n.table), a, addr, p.g);
  }

  /** A joined node offers later addresses of the round in vain. */
  lemma NoRoom(n: Node, addr: Addr, ts: nat)
    requires Joined(n.table, ts) && n.maxHlmac == 1
    ensures Kept(n.table, ts) == n.table && !HasRoom(n.table, 1) && WithTable(n, addr, ts) == n
  {
  }

  lemma LoopIsPrefix(n: Node, h: Hist, addr: Addr, p: Place)
    requires PreInv(n, h, p) && addr != [] && NonZero(addr)
    ensures HasLoop(n.table, addr) <==> ProperPrefix(MyAddr(n.table), addr)
  {
    HasLoopIsProperPrefix(n.table, addr);
  }

  /** Any further SetHLMAC of the round, at the root or at a node that has its address. */
  lemma StepSet(n: Node, h: Hist, a: LinkId, addr: Addr, draw: int, p: Place)
    requires LocalInv(n, h, p) && a !in h.given && addr != [] && NonZero(addr)
    requires CountsOk(HeardSet(h, MyAddr(n.table), a, addr, |p.g|), p)
    requires n.isRoot ==> h.nGiven + 1 < |p.g|
    ensures var r, h' := OnSetHlmac(n, a, addr, p.ts, draw), HeardSet(h, MyAddr(n.table), a, addr, |p.g|);
            LocalInv(r.node, h', p) && OutsMatch(n, h, r.node, h', p, r.outs)
  {
    var h' := HeardSet(h, MyAddr(n.table), a, addr, |p.g|);
    LoopIsPrefix(n, h, addr, p);
    NoRoom(n, addr, p.ts);
    if Offered(n, addr, p.ts) {
      var m := CountDown(Mark(n, a, false));
      assert Offer(n, a, addr, p.ts, draw) == Mark(n, a, false);
      Marked(n, h, a, addr, p);
      SaidNothing(n, h, m, h', p);
      OfferSettles(n, h, m, h', p);
      assert [] + AfterOffer(Mark(n, a, false)).outs == AfterOffer(Mark(n, a, false)).outs;
    } else {
      var m := CountDown(n);
      CountedDown(n, h, a, addr, p);
      SaidNothing(n, h, m, h', p);
      SettleDone(m, h', p);
      var r := SendIfDone(m);
      OutsMatchTrans(n, h, m, h', r.node, h', p, [], r.outs);
      assert [] + r.outs == r.outs;
    }
  }

  /** The sends after an offered address, once it is counted as `m`. */
  lemma OfferSettles(n: Node, h: Hist, m: Node, h': Hist, p: Place)
    requires PreInv(m, h', p) && OutsMatch(n, h, m, h', p, [])
    requires m.nbrsFlag == 0 ==> !m.isRoot && m.hijosLoad == 0 && m.hijosShare == 0 && !m.sentLoad && !m.sentShare
    ensures var a := BecomeEdge(m);
            var b := SendIfDone(a.node);
            LocalInv(b.node, h', p) && OutsMatch(n, h, b.node, h', p, a.outs + b.outs)
  {
    var a := BecomeEdge(m);
    if m.nbrsFlag == 0 {
      SettleEdge(m, h', p);
    } else {
      SaidNothing(m, h', m, h', p);
    }
    SettleDone(a.node, h', p);
    var b := SendIfDone(a.node);
    OutsMatchTrans(n, h, m, h', a.node, h', p, [], a.outs);
    assert [] + a.outs == a.outs;
    OutsMatchTrans(n, h, a.node, h', b.node, h', p, a.outs, b.outs);
  }

  // ---- the first SetHLMAC of the round ----

  /** A common node that holds nothing of this round. */
  ghost predicate Waiting(n: Node, p: Place)
  {
    && !n.isRoot && n.maxHlmac == 1 && Listed(n.nbrs, p.g)
    && |n.table| <= 1 && (n.table != [] ==> n.table[0].timestamp < p.ts)
    && (n.lastTimestamp < p.ts || n.lastTimestamp == 0)
  }

  function FirstHist(a: LinkId, addr: Addr, draw: int): Hist
  {
    Hist(map[a := addr], map[], map[], 0, a, draw, draw, 1, 1, 1, 1)
  }

  /** The last neighbour's share of the messages. */
  lemma ToLast(nbrs: seq<Nbr>, sender: LinkId, addr: Addr, ts: nat, k: Kind, w: LinkId)
    requires nbrs != []
    ensures var x := nbrs[|nbrs| - 1];
            To(SetHlmacs(nbrs, sender, addr, ts), k, w) == To(SetHlmacs(nbrs[..|nbrs| - 1], sender, addr, ts), k, w) +
            if x.addr != sender && x.addr == w && k == KSet then [SetHlmac(ts, addr, x.id)] else []
  {
    var x, before := nbrs[|nbrs| - 1], SetHlmacs(nbrs[..|nbrs| - 1], sender, addr, ts);
    if x.addr == sender {
      assert SetHlmacs(nbrs, sender, addr, ts) == before;
    } else {
      var o := Out(Some(x.addr), SetHlmac(ts, addr, x.id));
      assert SetHlmacs(nbrs, sender, addr, ts) == before + [o];
      ToConcat(before, [o], k, w);
      ToOne(o, k, w);
    }
  }

  lemma {:induction false} ToSetHlmacs(nbrs: seq<Nbr>, sender: LinkId, addr: Addr, ts: nat, k: Kind, w: LinkId)
    requires k != KSet || w == sender || forall i :: 0 <= i < |nbrs| ==> nbrs[i].addr != w
    ensures To(SetHlmacs(nbrs, sender, addr, ts), k, w) == []
  {
    if nbrs != [] {
      ToSetHlmacs(nbrs[..|nbrs| - 1], sender, addr, ts, k, w);
      ToLast(nbrs, sender, addr, ts, k, w);
    }
  }

  lemma {:induction false} ToSetHlmacsAt(nbrs: seq<Nbr>, sender: LinkId, addr: Addr, ts: nat, i: nat)
    requires Distinct(nbrs) && i < |nbrs| && nbrs[i].addr != sender
    ensures To(SetHlmacs(nbrs, sender, addr, ts), KSet, nbrs[i].addr) == [SetHlmac(ts, addr, nbrs[i].id)]
    decreases |nbrs|
  {
    var l, w := |nbrs| - 1, nbrs[i].addr;
    ToLast(nbrs, sender, addr, ts, KSet, w);
    if i < l {
      ToSetHlmacsAt(nbrs[..l], sender, addr, ts, i);
    } else {
      ToSetHlmacs(nbrs[..l], sender, addr, ts, KSet, w);
    }
  }

  /** One SetHLMAC, with the right id, for every neighbour but the sender. */
  lemma ToForwarded(nbrs: seq<Nbr>, sender: LinkId, addr: Addr, p: Place, k: Kind, w: LinkId)
    requires PlaceOk(p) && Listed(nbrs, p.g)
    ensures if k == KSet && w in p.nb && w != sender then
              IdIn(p.g, w) < 256 && To(SetHlmacs(nbrs, sender, addr, p.ts), k, w) == [SetHlmac(p.ts, addr, IdIn(p.g, w))]
            else To(SetHlmacs(nbrs, sender, addr, p.ts), k, w) == []
  {
    if w in p.nb && w != sender && k == KSet {
      var i :| 0 <= i < |p.g| && p.g[i] == w;
      IdInUnique(p.g, i);
      ToSetHlmacsAt(nbrs, sender, addr, p.ts, i);
    } else {
      ToSetHlmacs(nbrs, sender, addr, p.ts, k, w);
    }
  }

  /** The state in which a node has just joined. */
  ghost predicate JustJoined(n: Node, m: Node, a: LinkId, addr: Addr, draw: int, p: Place)
  {
    && !m.isRoot && m.maxHlmac == 1 && m.table == [TableEntry(addr, p.ts)] && m.lastTimestamp == p.ts
    && m.nbrs == SetFlag(ClearFlags(n.nbrs), a, 1)
    && m.hijosLoad == |p.g| - 1 && m.hijosShare == |p.g| - 1 && m.nbrsFlag == |p.g| - 1
    && m.nodeList == [ThisNode(addr, draw)] && !m.edge && !m.sentLoad && !m.sentShare
  }

  /** A node that waits takes whatever address arrives. */
  lemma Takes(n: Node, a: LinkId, addr: Addr, draw: int, p: Place)
    requires Waiting(n, p) && a in p.g && addr != []
    ensures Offered(n, addr, p.ts) && HasRoom(Kept(n.table, p.ts), n.maxHlmac)
    ensures JustJoined(n, CountDown(Offer(n, a, addr, p.ts, draw)), a, addr, draw, p)
  {
    if p.ts <= n.lastTimestamp {
      assert n.table == [] && p.ts == n.lastTimestamp;
      assert LongestMatch([], addr[..|addr| - 1]) == [];
    }
    assert Kept(n.table, p.ts) == [];
    assert Added(n.table, addr, p.ts, n.maxHlmac) == [TableEntry(addr, p.ts)];
  }

  lemma JoinInv(n: Node, m: Node, a: LinkId, addr: Addr, draw: int, p: Place)
    requires PlaceOk(p) && Listed(n.nbrs, p.g) && a in p.g && addr != [] && NonZero(addr)
    requires JustJoined(n, m, a, addr, draw, p)
    ensures PreInv(m, FirstHist(a, addr, draw), p)
  {
  }

  lemma JoinSaid(n: Node, h: Hist, m: Node, a: LinkId, addr: Addr, draw: int, p: Place)
    requires PlaceOk(p) && Listed(n.nbrs, p.g) && !Joined(n.table, p.ts) && |p.g| <= 255
    requires JustJoined(n, m, a, addr, draw, p)
    ensures OutsMatch(n, h, m, FirstHist(a, addr, draw), p, SetHlmacs(n.nbrs, a, addr, p.ts))
  {
    var outs, h' := SetHlmacs(n.nbrs, a, addr, p.ts), FirstHist(a, addr, draw);
    forall k: Kind, w: LinkId
      ensures OutMatches(n, h, m, h', p, outs, k, w)
    {
      ToForwarded(n.nbrs, a, addr, p, k, w);
    }
  }

  /** The first SetHLMAC of the round at a common node. */
  lemma StepJoin(n: Node, h: Hist, a: LinkId, addr: Addr, draw: int, p: Place)
    requires PlaceOk(p) && Waiting(n, p) && a in p.g && addr != [] && NonZero(addr)
    ensures var r, h' := OnSetHlmac(n, a, addr, p.ts, draw), FirstHist(a, addr, draw);
            LocalInv(r.node, h', p) && OutsMatch(n, h, r.node, h', p, r.outs) && !Joined(n.table, p.ts)
  {
    var m, h' := CountDown(Offer(n, a, addr, p.ts, draw)), FirstHist(a, addr, draw);
    var sent := SetHlmacs(n.nbrs, a, addr, p.ts);
    Takes(n, a, addr, draw, p);
    JoinInv(n, m, a, addr, draw, p);
    JoinSaid(n, h, m, a, addr, draw, p);
    SaidNothing(m, h', m, h', p);
    OfferSettles(m, h', m, h', p);
    var r := AfterOffer(Offer(n, a, addr, p.ts, draw));
    OutsMatchTrans(n, h, m, h', r.node, h', p, sent, r.outs);
  }

  // ---- a Load ----

  function HeardLoad(h: Hist, a: LinkId, value: int, size: nat): Hist
  {
    h.(loads := h.loads[a := value], report := Reported(h, size), nLoad := h.nLoad + 1)
  }

  lemma IndexIn(nbrs: seq<Nbr>, g: seq<LinkId>, a: LinkId)
    requires Listed(nbrs, g) && a in g
    ensures IndexOf(nbrs, a) < |nbrs| && nbrs[IndexOf(nbrs, a)].addr == a
  {
    var i :| 0 <= i < |g| && g[i] == a;
    assert nbrs[i].addr == a;
  }

  lemma LoadKeepsPre(n: Node, h: Hist, i: nat, value: int, a: LinkId, p: Place)
    requires LocalInv(n, h, p) && i < |n.nbrs| && n.nbrs[i].addr == a && a !in h.given && h.nLoad < |p.g|
    ensures PreInv(n.(nbrs := n.nbrs[i := n.nbrs[i].(load := value)], hijosLoad := |p.g| - h.nLoad - 1), HeardLoad(h, a, value, |p.g|), p)
  {
  }

  lemma LoadStored(n: Node, h: Hist, a: LinkId, value: int, p: Place)
    requires LocalInv(n, h, p) && a in p.g && a !in h.given
    requires h.nLoad < |p.g| && h.nOutside <= h.nGiven < |p.g|
    ensures var i := IndexOf(n.nbrs, a);
            && i < |n.nbrs| && !n.edge
            && PreInv(StoreLoad(n, i, value), HeardLoad(h, a, value, |p.g|), p)
            && StoreLoad(n, i, value) == n.(nbrs := n.nbrs[i := n.nbrs[i].(load := value)], hijosLoad := n.hijosLoad - 1)
  {
    IndexIn(n.nbrs, p.g, a);
    LoadKeepsPre(n, h, IndexOf(n.nbrs, a), value, a, p);
  }

  lemma StepLoad(n: Node, h: Hist, a: LinkId, value: int, p: Place)
    requires LocalInv(n, h, p) && a in p.g && a !in h.given
    requires h.nLoad < |p.g| && h.nOutside <= h.nGiven < |p.g|
    ensures var r, h' := OnLoad(n, a, value), HeardLoad(h, a, value, |p.g|);
            LocalInv(r.node, h', p) && OutsMatch(n, h, r.node, h', p, r.outs)
  {
    var i, h' := IndexOf(n.nbrs, a), HeardLoad(h, a, value, |p.g|);
    LoadStored(n, h, a, value, p);
    var m := StoreLoad(n, i, value);
    SaidNothing(n, h, m, h', p);
    ConvergeKeeps(m, h', p);
    SettleLoad(m, h', p);
    var r := OnLoad(n, a, value);
    OutsMatchTrans(n, h, m, h', r.node, h', p, [], r.outs);
    assert [] + r.outs == r.outs;
  }

  // ---- a Share ----

  function HeardShare(h: Hist, a: LinkId, value: int): Hist
  {
    h.(shares := h.shares[a := value], total := h.total + value, nShare := h.nShare + 1)
  }

  lemma ShareAdded(n: Node, h: Hist, a: LinkId, value: int, p: Place)
    requires LocalInv(n, h, p) && a in p.g && a !in h.given
    requires h.nShare < |p.g| && h.nOutside <= h.nGiven < |p.g|
    ensures var i := IndexOf(n.nbrs, a);
            && i < |n.nbrs| && !n.edge && n.nbrs[i].flag == 0 && n.hijosShare != 0
            && PreInv(AddShare(n, value), HeardShare(h, a, value), p)
    ensures SameButCount(n, AddShare(n, value))
  {
    IndexIn(n.nbrs, p.g, a);
    assert HeadLoad(AddShare(n, value)) == HeadLoad(n) + value;
  }

  ghost predicate SameButCount(n: Node, n': Node)
  {
    && n'.table == n.table && n'.isRoot == n.isRoot && n'.sentLoad == n.sentLoad && n'.sentShare == n.sentShare
    && n'.extraLoad == n.extraLoad && n'.edge == n.edge && n'.nbrsFlag == n.nbrsFlag && n'.hijosLoad == n.hijosLoad
  }

  lemma FlowStored(n: Node, h: Hist, i: nat, value: int, p: Place)
    requires LocalInv(n, h, p)
    ensures LocalInv(StoreFlow(n, i, value), h, p)
    ensures OutsMatch(n, h, StoreFlow(n, i, value), h, p, [])
  {
    SaidNothing(n, h, StoreFlow(n, i, value), h, p);
  }

  lemma Absorbed(n: Node, h: Hist, a: LinkId, value: int, p: Place)
    requires LocalInv(n, h, p) && a in p.g && a !in h.given
    requires h.nShare < |p.g| && h.nOutside <= h.nGiven < |p.g|
    ensures var r, h' := AbsorbShare(n, value), HeardShare(h, a, value);
            LocalInv(r.node, h', p) && OutsMatch(n, h, r.node, h', p, r.outs)
  {
    var m, h' := AddShare(n, value), HeardShare(h, a, value);
    ShareAdded(n, h, a, value, p);
    SaidNothing(n, h, m, h', p);
    ConvergeKeeps(m, h', p);
    SettleShare(m, h', p);
    var r := AbsorbShare(n, value);
    OutsMatchTrans(n, h, m, h', r.node, h', p, [], r.outs);
    assert [] + r.outs == r.outs;
  }

  lemma StepShare(n: Node, h: Hist, a: LinkId, value: int, p: Place)
    requires LocalInv(n, h, p) && a in p.g && a !in h.given
    requires h.nShare < |p.g| && h.nOutside <= h.nGiven < |p.g|
    ensures var r, h' := OnShare(n, a, value), HeardShare(h, a, value);
            LocalInv(r.node, h', p) && OutsMatch(n, h, r.node, h', p, r.outs)
  {
    var i, h' := IndexOf(n.nbrs, a), HeardShare(h, a, value);
    ShareAdded(n, h, a, value, p);
    Absorbed(n, h, a, value, p);
    var s := AbsorbShare(n, value);
    FlowStored(s.node, h', i, value, p);
    OutsMatchTrans(n, h, s.node, h', StoreFlow(s.node, i, value), h', p, s.outs, []);
    assert s.outs + [] == s.outs;
  }

  // ---- the root opens the round ----

  /** The root just before the timer of round `ts` fires. */
  ghost predicate RootReady(n: Node, p: Place)
  {
    && n.isRoot && n.maxHlmac == 1 && Listed(n.nbrs, p.g) && n.self !in p.g
    && |n.table| <= 1 && (n.table != [] ==> n.table[0].timestamp < p.ts)
    && n.lastTimestamp == 0 && n.rootTimestamp == p.ts - 1 && !n.edge
  }

  function RootHist(start: int): Hist { Hist(map[], map[], map[], 0, 0, start, 0, 0, 0, 0, 0) }

  lemma RootOpens(n: Node, draw: int, p: Place)
    requires RootReady(n, p)
    ensures var m := OnRootTimer(n, draw).node;
            && m.isRoot && m.maxHlmac == 1 && m.table == [TableEntry([1], p.ts)] && m.lastTimestamp == 0
            && m.rootTimestamp == p.ts && m.nbrs == ClearFlags(n.nbrs) && !m.edge && !m.hasConverged
            && m.hijosLoad == |p.g| && m.hijosShare == |p.g| && m.nbrsFlag == |p.g|
            && m.nodeList == n.nodeList + [ThisNode([1], draw)]
    ensures OnRootTimer(n, draw).outs == SetHlmacs(n.nbrs, n.self, [1], p.ts)
  {
    assert Added(n.table, [1], p.ts, 1) == [TableEntry([1], p.ts)];
  }

  lemma StepRoot(n: Node, h: Hist, draw: int, p: Place)
    requires PlaceOk(p) && RootReady(n, p) && p.g != []
    ensures var r := OnRootTimer(n, draw);
            var h' := RootHist(HeadLoad(r.node));
            LocalInv(r.node, h', p) && OutsMatch(n, h, r.node, h', p, r.outs)
  {
    var r := OnRootTimer(n, draw);
    RootOpens(n, draw, p);
    var h' := RootHist(HeadLoad(r.node));
    assert OutsMatch(n, h, r.node, h', p, r.outs) by {
      forall k: Kind, w: LinkId
        ensures OutMatches(n, h, r.node, h', p, r.outs, k, w)
      {
        ToForwarded(n.nbrs, n.self, [1], p, k, w);
      }
    }
  }
}
