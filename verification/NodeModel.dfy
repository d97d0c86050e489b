/**
 * What one node does with each event of the unicast protocol: the handlers of
 * iotorii-csma.c as functions from the old state of the node to the new one and
 * the messages it queues. The class in Node.dfy is proved against these functions,
 * and the network models run them.
 */
module NodeModel {
  import opened Types
  import opened HlmacTable

  /** An entry of the neighbour table. */
  datatype Nbr = Nbr(addr: LinkId, id: Byte, flag: int, load: int, inOut: int)

  /** `this_node_t`: an address held and the node's load. */
  datatype ThisNode = ThisNode(addr: Addr, load: int)

  datatype Msg =
    | SetHlmac(timestamp: nat, prefix: Addr, id: Byte)
    | Load(value: int)
    | Share(value: int)

  /** A queued payload; the destination stays unset when no neighbour is the parent. */
  datatype Out = Out(dest: Option<LinkId>, msg: Msg)

  /** `after` is `before` with `outs` queued behind it in some order. */
  ghost predicate Adds(before: seq<Out>, after: seq<Out>, outs: seq<Out>)
  {
    before <= after && multiset(after[|before|..]) == multiset(outs)
  }

  lemma AddsExactly(before: seq<Out>, after: seq<Out>, outs: seq<Out>)
    requires after == before + outs
    ensures Adds(before, after, outs)
  {
    assert after[|before|..] == outs;
  }

  function Destination(o: Out, unset: LinkId): LinkId
  {
    match o.dest
    case Some(a) => a
    case None => unset
  }

  datatype Node = Node(
    self: LinkId,
    isRoot: bool,
    maxHlmac: int,
    nbrs: seq<Nbr>,
    table: seq<TableEntry>,
    nodeList: seq<ThisNode>,
    lastTimestamp: nat,
    hijosLoad: Byte,
    hijosShare: Byte,
    nbrsFlag: int,
    edge: bool,
    sentLoad: bool,
    sentShare: bool,
    extraLoad: int,
    hasConverged: bool,
    rootTimestamp: int)

  datatype Res = Res(node: Node, outs: seq<Out>)

  // ---- the neighbour table ----

  function IndexOf(nbrs: seq<Nbr>, a: LinkId): (i: nat)
    ensures i <= |nbrs|
    ensures i < |nbrs| ==> nbrs[i].addr == a
    ensures forall j :: 0 <= j < i ==> nbrs[j].addr != a
  {
    if nbrs == [] then 0
    else if nbrs[0].addr == a then 0
    else 1 + IndexOf(nbrs[1..], a)
  }

  /** With distinct addresses an entry is found where it is. */
  lemma {:induction false} IndexIs(nbrs: seq<Nbr>, i: nat)
    requires Distinct(nbrs) && i < |nbrs|
    ensures IndexOf(nbrs, nbrs[i].addr) == i
  {
    var k := IndexOf(nbrs, nbrs[i].addr);
    assert k <= i;
  }

  predicate HasNbr(nbrs: seq<Nbr>, a: LinkId)
  {
    exists i :: 0 <= i < |nbrs| && nbrs[i].addr == a
  }

  predicate Distinct(nbrs: seq<Nbr>)
  {
    forall i, j :: 0 <= i < j < |nbrs| ==> nbrs[i].addr != nbrs[j].addr
  }

  /** The same neighbours, whatever is recorded about them. */
  ghost predicate SameAddrs(a: seq<Nbr>, b: seq<Nbr>)
  {
    |a| == |b| && forall i :: 0 <= i < |a| ==> a[i].addr == b[i].addr
  }

  lemma SameAddrsKeep(a: seq<Nbr>, b: seq<Nbr>, self: LinkId)
    requires SameAddrs(a, b)
    ensures Distinct(a) ==> Distinct(b)
    ensures HasNbr(a, self) <==> HasNbr(b, self)
  {
    if HasNbr(a, self) {
      var i :| 0 <= i < |a| && a[i].addr == self;
      assert b[i].addr == self;
    }
  }

  function SetFlag(nbrs: seq<Nbr>, a: LinkId, flag: int): (r: seq<Nbr>)
    ensures |r| == |nbrs|
    ensures forall i :: 0 <= i < |nbrs| ==> r[i] == if nbrs[i].addr == a then nbrs[i].(flag := flag) else nbrs[i]
  {
    seq(|nbrs|, i requires 0 <= i < |nbrs| => if nbrs[i].addr == a then nbrs[i].(flag := flag) else nbrs[i])
  }

  function ClearFlags(nbrs: seq<Nbr>): (r: seq<Nbr>)
    ensures |r| == |nbrs|
    ensures forall i :: 0 <= i < |nbrs| ==> r[i] == nbrs[i].(flag := 0)
  {
    seq(|nbrs|, i requires 0 <= i < |nbrs| => nbrs[i].(flag := 0))
  }

  /** The flow towards every parent becomes `flow`. */
  function SetParentFlow(nbrs: seq<Nbr>, flow: int): (r: seq<Nbr>)
    ensures |r| == |nbrs|
    ensures forall i :: 0 <= i < |nbrs| ==> r[i] == if nbrs[i].flag == 1 then nbrs[i].(inOut := flow) else nbrs[i]
  {
    seq(|nbrs|, i requires 0 <= i < |nbrs| => if nbrs[i].flag == 1 then nbrs[i].(inOut := flow) else nbrs[i])
  }

  /** The parent: the last neighbour with flag 1. */
  function Parent(nbrs: seq<Nbr>): (p: Option<LinkId>)
    ensures p == None <==> forall i :: 0 <= i < |nbrs| ==> nbrs[i].flag != 1
    ensures p.Some? ==> exists i :: 0 <= i < |nbrs| && nbrs[i].flag == 1 && nbrs[i].addr == p.value
  {
    if nbrs == [] then None
    else
      var l := |nbrs| - 1;
      if nbrs[l].flag == 1 then Some(nbrs[l].addr) else Parent(nbrs[..l])
  }

  /** One SetHLMAC for every neighbour except `sender`, in table order. */
  function SetHlmacs(nbrs: seq<Nbr>, sender: LinkId, addr: Addr, ts: nat): seq<Out>
  {
    if nbrs == [] then []
    else
      var l := |nbrs| - 1;
      SetHlmacs(nbrs[..l], sender, addr, ts) +
      if nbrs[l].addr == sender then [] else [Out(Some(nbrs[l].addr), SetHlmac(ts, addr, nbrs[l].id))]
  }

  /** The messages depend on addresses and ids only. */
  lemma {:induction false} SetHlmacsIgnoreFlags(nbrs: seq<Nbr>, sender: LinkId, addr: Addr, ts: nat)
    ensures SetHlmacs(ClearFlags(nbrs), sender, addr, ts) == SetHlmacs(nbrs, sender, addr, ts)
  {
    if nbrs != [] {
      var l := |nbrs| - 1;
      SetHlmacsIgnoreFlags(nbrs[..l], sender, addr, ts);
      assert ClearFlags(nbrs)[..l] == ClearFlags(nbrs[..l]);
    }
  }

  // ---- Load and Share ----

  function HeadLoad(n: Node): int
  {
    if n.nodeList == [] then 0 else n.nodeList[0].load
  }

  function WithHeadLoad(n: Node, load: int): Node
  {
    if n.nodeList == [] then n
    else n.(nodeList := [n.nodeList[0].(load := load)] + n.nodeList[1..])
  }

  /** iotorii_handle_load_timer */
  function LoadTimer(n: Node): seq<Out>
  {
    if n.nodeList == [] then []
    else match Parent(n.nbrs)
      case Some(p) => [Out(Some(p), Load(n.nodeList[0].load))]
      case None => []
  }

  /** A common node keeps exactly 100. */
  function KeepHundred(n: Node): Node
  {
    if n.isRoot then n else WithHeadLoad(n, 100)
  }

  /** iotorii_handle_share_upstream_timer: everything above 100 goes up, everything missing is asked for. */
  function ShareTimer(n: Node): Res
  {
    var extra := ToInt16(HeadLoad(n) - 100);
    Res(KeepHundred(n).(extraLoad := extra, nbrs := SetParentFlow(n.nbrs, ToInt16(-extra))),
        [Out(Parent(n.nbrs), Share(extra))])
  }

  function CountDown(n: Node): Node
  {
    n.(hijosLoad := if n.hijosLoad > 0 then n.hijosLoad - 1 else 0,
       hijosShare := if n.hijosShare > 0 then n.hijosShare - 1 else 0)
  }

  function SendLoadIfDone(n: Node): Res
  {
    if !n.edge && n.hijosLoad == 0 && !n.sentLoad then Res(n.(sentLoad := true), LoadTimer(n)) else Res(n, [])
  }

  function SendShareIfDone(n: Node): Res
  {
    if !n.edge && n.hijosShare == 0 && !n.sentShare then
      var s := ShareTimer(n);
      Res(s.node.(sentShare := true), s.outs)
    else Res(n, [])
  }

  /** A leaf sends both of its messages. */
  function SendBoth(n: Node): Res
  {
    var s := ShareTimer(n);
    Res(s.node.(sentLoad := true, sentShare := true), LoadTimer(n) + s.outs)
  }

  /** All neighbours have assigned an address: the node is a leaf. */
  function BecomeEdge(n: Node): Res
  {
    if n.nbrsFlag == 0 then SendBoth(n.(edge := true)) else Res(n, [])
  }

  /** The root declares convergence once nothing is missing. */
  function Converge(n: Node): Node
  {
    if n.isRoot && n.hijosLoad == 0 && n.hijosShare == 0 then n.(hasConverged := true) else n
  }

  // ---- handlers ----

  /** iotorii_handle_incoming_hello; the id of the 256th neighbour wraps to 0. */
  function OnHello(n: Node, sender: LinkId): Node
  {
    if |n.nbrs| < 256 && !HasNbr(n.nbrs, sender) then
      n.(nbrs := n.nbrs + [Nbr(sender, (|n.nbrs| + 1) % 256, 0, 0, 0)])
    else n
  }

  /** Records a neighbour's Load and stops awaiting it. */
  function StoreLoad(n: Node, i: nat, value: int): Node
    requires i < |n.nbrs|
  {
    var awaited := n.nbrs[i].flag == 0 && !n.edge && n.hijosLoad != 0;
    n.(nbrs := n.nbrs[i := n.nbrs[i].(load := value)], hijosLoad := if awaited then n.hijosLoad - 1 else n.hijosLoad)
  }

  /** A Load from `sender`. */
  function OnLoad(n: Node, sender: LinkId, value: int): Res
  {
    var i := IndexOf(n.nbrs, sender);
    if i == |n.nbrs| then Res(n, [])
    else
      var n1 := StoreLoad(n, i, value);
      if n.isRoot then Res(Converge(n1), []) else SendLoadIfDone(n1)
  }

  /** Adds a Share to the node's load and stops awaiting its sender. */
  function AddShare(n: Node, value: int): Node
  {
    WithHeadLoad(n, HeadLoad(n) + value).(hijosShare := if n.hijosShare > 0 then n.hijosShare - 1 else 0)
  }

  /** The part of a Share that is absorbed only while the sender is awaited. */
  function AbsorbShare(n: Node, value: int): Res
  {
    var n1 := AddShare(n, value);
    if n.isRoot then Res(Converge(n1), []) else SendShareIfDone(n1)
  }

  /** The first non-zero Share is the flow from that neighbour. */
  function StoreFlow(n: Node, i: nat, value: int): Node
  {
    if value != 0 && i < |n.nbrs| && n.nbrs[i].inOut == 0 then n.(nbrs := n.nbrs[i := n.nbrs[i].(inOut := value)]) else n
  }

  /** A Share from `sender`. */
  function OnShare(n: Node, sender: LinkId, value: int): Res
  {
    var i := IndexOf(n.nbrs, sender);
    if i == |n.nbrs| then Res(n, [])
    else
      var r := if n.nbrs[i].flag == 0 && !n.edge && n.hijosShare != 0 then AbsorbShare(n, value) else Res(n, []);
      Res(StoreFlow(r.node, i, value), r.outs)
  }

  /** Whether a received address is offered to the table. */
  predicate Offered(n: Node, addr: Addr, ts: nat)
    requires |addr| > 0
  {
    ts > n.lastTimestamp || (!HasLoop(n.table, addr) && ts == n.lastTimestamp)
  }

  predicate Accepted(n: Node, addr: Addr, ts: nat)
    requires |addr| > 0
  {
    Offered(n, addr, ts) && HasRoom(Kept(n.table, ts), n.maxHlmac)
  }

  /** Every neighbour is awaited. */
  function AwaitAll(n: Node): Node
  {
    n.(hijosLoad := |n.nbrs| % 256, hijosShare := |n.nbrs| % 256, nbrs := ClearFlags(n.nbrs), nbrsFlag := |n.nbrs|)
  }

  /** A new round starts at this node. */
  function Reset(n: Node, ts: nat): Node
  {
    if n.lastTimestamp < ts || n.lastTimestamp == 0 then
      AwaitAll(n).(lastTimestamp := ts, edge := false, nodeList := [], sentLoad := false, sentShare := false)
    else n
  }

  /** list_this_node_entry: the node's random load for an address. */
  function WithEntry(n: Node, addr: Addr, draw: int): Node
  {
    n.(nodeList := n.nodeList + [ThisNode(addr, draw)])
  }

  /** Takes the address, with the node's random load `draw`. */
  function Accept(n: Node, addr: Addr, ts: nat, draw: int): Node
  {
    WithEntry(Reset(n, ts), addr, draw)
  }

  /** Marks the sender as parent (1) or as a neighbour that offered an address in vain (-1). */
  function Mark(n: Node, sender: LinkId, added: bool): Node
  {
    n.(nbrs := SetFlag(n.nbrs, sender, if added then 1 else -1), nbrsFlag := n.nbrsFlag - 1)
  }

  /** Load and Share go out as soon as their counters reach 0. */
  function SendIfDone(n: Node): Res
  {
    var b := SendLoadIfDone(n);
    var c := SendShareIfDone(b.node);
    Res(Converge(c.node), b.outs + c.outs)
  }

  /** The sends that follow an offered address. */
  function AfterOffer(n: Node): Res { SendOffer(CountDown(n)) }

  function SendOffer(n: Node): Res
  {
    var a := BecomeEdge(n);
    var b := SendIfDone(a.node);
    Res(b.node, a.outs + b.outs)
  }

  /** The sends that follow an address rejected as a loop or as stale. */
  function AfterRejection(n: Node): Res { SendIfDone(CountDown(n)) }

  function WithTable(n: Node, addr: Addr, ts: nat): Node
  {
    n.(table := Added(n.table, addr, ts, n.maxHlmac))
  }

  /** The table and the node's round state once an address is offered. */
  function Offer(n: Node, sender: LinkId, addr: Addr, ts: nat, draw: int): Node
    requires |addr| > 0
  {
    var added := HasRoom(Kept(n.table, ts), n.maxHlmac);
    var n1 := WithTable(n, addr, ts);
    Mark(if added then Accept(n1, addr, ts, draw) else n1, sender, added)
  }

  function OnOffered(n: Node, sender: LinkId, addr: Addr, ts: nat, draw: int): Res
    requires |addr| > 0
  {
    var r := AfterOffer(Offer(n, sender, addr, ts, draw));
    Res(r.node, (if HasRoom(Kept(n.table, ts), n.maxHlmac) then SetHlmacs(n.nbrs, sender, addr, ts) else []) + r.outs)
  }

  /** An address assigned by `sender`. */
  function OnSetHlmac(n: Node, sender: LinkId, addr: Addr, ts: nat, draw: int): Res
    requires |addr| > 0
  {
    if Offered(n, addr, ts) then OnOffered(n, sender, addr, ts, draw) else AfterRejection(n)
  }

  /** The root takes its own address for a new timestamp. */
  function OpenRound(n: Node, draw: int): Node
    requires n.rootTimestamp >= -1
  {
    var ts := n.rootTimestamp + 1;
    WithEntry(WithTable(n.(rootTimestamp := ts, hasConverged := false), [1], ts), [1], draw)
  }

  /** iotorii_handle_sethlmac_timer: the root opens a round. */
  function OnRootTimer(n: Node, draw: int): Res
    requires n.rootTimestamp >= -1
  {
    Res(AwaitAll(OpenRound(n, draw)), SetHlmacs(n.nbrs, n.self, [1], n.rootTimestamp + 1))
  }

  // ---- what no handler changes ----

  ghost predicate SameIdentity(n: Node, n': Node)
  {
    && n'.self == n.self && n'.isRoot == n.isRoot && n'.maxHlmac == n.maxHlmac && n'.rootTimestamp == n.rootTimestamp
    && (!n.isRoot ==> n'.hasConverged == n.hasConverged)
  }

  lemma SendKeepsIdentity(n: Node)
    ensures SameIdentity(n, SendIfDone(n).node) && SendIfDone(n).node.table == n.table
  {
  }

  lemma EdgeKeepsIdentity(n: Node)
    ensures SameIdentity(n, BecomeEdge(n).node) && BecomeEdge(n).node.table == n.table
  {
  }

  /** Role and configuration are fixed, only OnSetHlmac touches the table, and only the root declares convergence. */
  lemma SetKeepsIdentity(n: Node, sender: LinkId, addr: Addr, ts: nat, draw: int)
    requires |addr| > 0
    ensures var r := OnSetHlmac(n, sender, addr, ts, draw);
            && SameIdentity(n, r.node)
            && r.node.table == if Offered(n, addr, ts) then Added(n.table, addr, ts, n.maxHlmac) else n.table
  {
    var m := if Offered(n, addr, ts) then CountDown(Offer(n, sender, addr, ts, draw)) else CountDown(n);
    EdgeKeepsIdentity(m);
    SendKeepsIdentity(m);
    SendKeepsIdentity(BecomeEdge(m).node);
  }

  lemma LoadKeepsIdentity(n: Node, sender: LinkId, value: int)
    ensures SameIdentity(n, OnLoad(n, sender, value).node) && OnLoad(n, sender, value).node.table == n.table
  {
  }

  lemma AddKeepsIdentity(n: Node, value: int)
    ensures SameIdentity(n, AddShare(n, value)) && AddShare(n, value).table == n.table
  {
  }

  lemma ShareSendKeepsIdentity(n: Node)
    ensures SameIdentity(n, SendShareIfDone(n).node) && SendShareIfDone(n).node.table == n.table
    ensures SameIdentity(n, Converge(n)) && Converge(n).table == n.table
  {
  }

  lemma AbsorbKeepsIdentity(n: Node, value: int)
    ensures SameIdentity(n, AbsorbShare(n, value).node) && AbsorbShare(n, value).node.table == n.table
  {
    AddKeepsIdentity(n, value);
    ShareSendKeepsIdentity(AddShare(n, value));
  }

  lemma ShareKeepsIdentity(n: Node, sender: LinkId, value: int)
    ensures SameIdentity(n, OnShare(n, sender, value).node) && OnShare(n, sender, value).node.table == n.table
  {
    AbsorbKeepsIdentity(n, value);
  }

  // ---- what a handler leaves done ----

  /** What is due has been sent: the Load, or the root's declaration. */
  predicate LoadSettled(n: Node)
  {
    if n.isRoot then (n.hijosLoad == 0 && n.hijosShare == 0 ==> n.hasConverged)
    else !n.edge && n.hijosLoad == 0 ==> n.sentLoad
  }

  predicate ShareSettled(n: Node)
  {
    if n.isRoot then (n.hijosLoad == 0 && n.hijosShare == 0 ==> n.hasConverged)
    else !n.edge && n.hijosShare == 0 ==> n.sentShare
  }

  lemma SendSettles(n: Node)
    ensures LoadSettled(SendIfDone(n).node) && ShareSettled(SendIfDone(n).node)
  {
  }

  /** After any SetHLMAC nothing due is left unsent. */
  lemma SetSettles(n: Node, sender: LinkId, addr: Addr, ts: nat, draw: int)
    requires |addr| > 0
    ensures LoadSettled(OnSetHlmac(n, sender, addr, ts, draw).node) && ShareSettled(OnSetHlmac(n, sender, addr, ts, draw).node)
  {
    if Offered(n, addr, ts) {
      SendSettles(BecomeEdge(CountDown(Offer(n, sender, addr, ts, draw))).node);
    } else {
      SendSettles(CountDown(n));
    }
  }

  /** A Load from any neighbour is recorded, awaited or not, and leaves no Load due. */
  lemma LoadIsRecorded(n: Node, k: nat, value: int)
    requires Distinct(n.nbrs) && k < |n.nbrs|
    ensures var m := OnLoad(n, n.nbrs[k].addr, value).node;
            && |m.nbrs| == |n.nbrs| && m.nbrs[k].load == value && LoadSettled(m)
            && forall j :: 0 <= j < |n.nbrs| && j != k ==> m.nbrs[j].load == n.nbrs[j].load
  {
    IndexIs(n.nbrs, k);
  }

  lemma AbsorbKeepsFlows(n: Node, value: int)
    ensures var m := AbsorbShare(n, value).node;
            && |m.nbrs| == |n.nbrs|
            && forall j :: 0 <= j < |n.nbrs| ==> m.nbrs[j].load == n.nbrs[j].load && (n.nbrs[j].flag != 1 ==> m.nbrs[j] == n.nbrs[j])
    ensures ShareSettled(AbsorbShare(n, value).node)
  {
    assert AddShare(n, value).nbrs == n.nbrs;
  }

  /** A Share from any neighbour is recorded as the flow unless it is 0 or there is one, awaited or not. */
  lemma ShareIsRecorded(n: Node, k: nat, value: int)
    requires Distinct(n.nbrs) && k < |n.nbrs|
    ensures var m := OnShare(n, n.nbrs[k].addr, value).node;
            && |m.nbrs| == |n.nbrs|
            && m.nbrs[k].inOut == (if value != 0 && n.nbrs[k].inOut == 0 then value else n.nbrs[k].inOut)
            && (n.nbrs[k].flag == 0 && !n.edge && n.hijosShare != 0 ==> ShareSettled(m))
  {
    IndexIs(n.nbrs, k);
    var absorbed := n.nbrs[k].flag == 0 && !n.edge && n.hijosShare != 0;
    var r := if absorbed then AbsorbShare(n, value).node else n;
    if absorbed {
      AbsorbKeepsFlows(n, value);
    }
    FlowIsStored(r, k, value);
  }

  lemma FlowIsStored(n: Node, k: nat, value: int)
    requires k < |n.nbrs|
    ensures var m := StoreFlow(n, k, value);
            && |m.nbrs| == |n.nbrs| && (ShareSettled(n) ==> ShareSettled(m))
            && m.nbrs[k].inOut == if value != 0 && n.nbrs[k].inOut == 0 then value else n.nbrs[k].inOut
  {
  }

  /** Within what one handler queues, the Load comes before the Share. */
  predicate LoadFirst(outs: seq<Out>)
  {
    forall i, j :: 0 <= i < j < |outs| && outs[i].msg.Share? ==> !outs[j].msg.Load?
  }

  lemma SendLoadFirst(n: Node)
    ensures LoadFirst(SendIfDone(n).outs) && (n.edge ==> SendIfDone(n).outs == [])
    ensures BecomeEdge(n).outs != [] ==> BecomeEdge(n).node.edge
    ensures LoadFirst(BecomeEdge(n).outs)
  {
  }

  lemma {:induction false} OnlySetHlmacs(nbrs: seq<Nbr>, sender: LinkId, addr: Addr, ts: nat)
    ensures forall i :: 0 <= i < |SetHlmacs(nbrs, sender, addr, ts)| ==> SetHlmacs(nbrs, sender, addr, ts)[i].msg.SetHlmac?
  {
    if nbrs != [] {
      OnlySetHlmacs(nbrs[..|nbrs| - 1], sender, addr, ts);
    }
  }

  lemma LoadBeforeShare(n: Node, sender: LinkId, addr: Addr, ts: nat, draw: int)
    requires |addr| > 0
    ensures LoadFirst(OnSetHlmac(n, sender, addr, ts, draw).outs)
  {
    var m := if Offered(n, addr, ts) then CountDown(Offer(n, sender, addr, ts, draw)) else CountDown(n);
    OnlySetHlmacs(n.nbrs, sender, addr, ts);
    SendLoadFirst(m);
    SendLoadFirst(BecomeEdge(m).node);
  }
}
