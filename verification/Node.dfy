/**
 * The node of iotorii-csma.c: global variables as fields, handlers as methods. Every
 * handler is proved to compute the function of NodeModel with the same name.
 */
module NodeClass {
  import opened Types
  import opened HlmacTable
  import opened NodeModel
  import opened RandomOrder
  import Csma
  import Dispatch
  import Wire

  class IotoriiNode {
    const self: LinkId
    const isRoot: bool
    const maxPayload: int
    const macLen: nat
    const table: Table

    var neighbours: seq<Nbr>
    var numberOfNeighbours: nat
    var numberOfNeighboursFlag: int
    var nodeList: seq<ThisNode>
    var lastTimestamp: nat
    var nHijosLoad: Byte
    var nHijosShare: Byte
    var edge: bool
    var sentLoad: bool
    var sentShare: bool
    var extraLoad: int
    var hasConverged: bool
    var rootTimestamp: int

    var payloadEntries: seq<Out>
    var timerArmed: bool

    /** What every handler keeps: the counter is the table length, and the send timer runs iff something is queued. */
    ghost predicate Valid()
      reads this, table
    {
      && table.Valid()
      && numberOfNeighbours == |neighbours| <= 256
      && Distinct(neighbours)
      && !HasNbr(neighbours, self)
      && rootTimestamp >= -1
      && (table.maxHlmac == -1 || table.maxHlmac >= 1)
      && (nHijosShare != 0 || table.entries != [] || lastTimestamp > 0 ==> nodeList != [])
      && (timerArmed <==> payloadEntries != [])
    }

    ghost function State(): Node
      reads this, table
    {
      Node(self, isRoot, table.maxHlmac, neighbours, table.entries, nodeList, lastTimestamp,
           nHijosLoad, nHijosShare, numberOfNeighboursFlag, edge, sentLoad, sentShare,
           extraLoad, hasConverged, rootTimestamp)
    }

    /** Both records of a two-record payload fit, so no SetHLMAC of the round is left unsent. */
    predicate Roomy(addr: Addr)
    {
      maxPayload >= |addr| + 7 + 2 * macLen
    }

    /** An address that is taken has room for two records in a payload, and the send loop ends. */
    ghost predicate Forwards(sender: LinkId, addr: Addr, ts: nat)
      requires |addr| > 0
      reads this, table
    {
      Accepted(State(), addr, ts) ==> Roomy(addr) && SendEnds(neighbours, sender)
    }

    /** ... as asked of a packet that assigns one. */
    ghost predicate Handles(sender: LinkId, packet: Wire.Incoming)
      reads this, table
    {
      packet.SetHlmac? ==> 0 < |packet.address| < 256 && Forwards(sender, packet.address, packet.timestamp)
    }

    constructor (self: LinkId, isRoot: bool, maxPayload: int, macLen: nat, maxHlmac: int)
      requires maxHlmac == -1 || maxHlmac >= 1
      ensures Valid() && fresh(table)
      ensures neighbours == [] && nodeList == [] && table.entries == [] && payloadEntries == []
      ensures this.self == self && this.isRoot == isRoot && table.maxHlmac == maxHlmac
      ensures lastTimestamp == 0 && rootTimestamp == -1 && !edge && !hasConverged
    {
      this.self, this.isRoot, this.maxPayload, this.macLen := self, isRoot, maxPayload, macLen;
      table := new Table(maxHlmac);
      neighbours, numberOfNeighbours, numberOfNeighboursFlag := [], 0, 0;
      nodeList, lastTimestamp := [], 0;
      nHijosLoad, nHijosShare := 0, 0;
      edge, sentLoad, sentShare, hasConverged := false, false, false, false;
      extraLoad, rootTimestamp := 0, -1;
      payloadEntries, timerArmed := [], false;
    }

    /** list_add on payload_entry_list, arming the timer when the list was empty. */
    method Enqueue(out: Out)
      requires timerArmed <==> payloadEntries != []
      modifies this`payloadEntries, this`timerArmed
      ensures payloadEntries == old(payloadEntries) + [out]
      ensures timerArmed && State() == old(State())
    {
      if payloadEntries == [] {
        timerArmed := true;
      }
      payloadEntries := payloadEntries + [out];
    }

    /** iotorii_handle_incoming_hello: the table grows by unknown senders only. */
    method HandleIncomingHello(sender: LinkId)
      requires Valid() && sender != self
      modifies this`neighbours, this`numberOfNeighbours
      ensures Valid()
      ensures State() == OnHello(old(State()), sender)
    {
      if numberOfNeighbours < 256 {
        var inTable := false;
        var i := 0;
        while i < |neighbours|
          invariant 0 <= i <= |neighbours|
          invariant inTable <==> exists j :: 0 <= j < i && neighbours[j].addr == sender
        {
          if neighbours[i].addr == sender {
            inTable := true;
          }
          i := i + 1;
        }
        if !inTable {
          numberOfNeighbours := numberOfNeighbours + 1;
          neighbours := neighbours + [Nbr(sender, numberOfNeighbours % 256, 0, 0, 0)];
        }
      }
    }

    /** iotorii_neighbours_flag */
    method NeighboursFlag()
      modifies this`neighbours
      ensures neighbours == ClearFlags(old(neighbours))
    {
      var i := 0;
      while i < |neighbours|
        invariant 0 <= i <= |neighbours| == |old(neighbours)|
        invariant forall j :: 0 <= j < i ==> neighbours[j] == old(neighbours)[j].(flag := 0)
        invariant forall j :: i <= j < |neighbours| ==> neighbours[j] == old(neighbours)[j]
      {
        neighbours := neighbours[i := neighbours[i].(flag := 0)];
        i := i + 1;
      }
    }

    /** iotorii_handle_load_timer: one payload, addressed to the last parent met. */
    method HandleLoadTimer()
      requires timerArmed <==> payloadEntries != []
      modifies this`payloadEntries, this`timerArmed
      ensures timerArmed <==> payloadEntries != []
      ensures State() == old(State())
      ensures payloadEntries == old(payloadEntries) + LoadTimer(old(State()))
    {
      if nodeList != [] {
        var dest: Option<LinkId> := None;
        var i := 0;
        while i < |neighbours|
          invariant 0 <= i <= |neighbours|
          invariant dest == Parent(neighbours[..i])
        {
          assert neighbours[..i + 1][..i] == neighbours[..i];
          if neighbours[i].flag == 1 {
            dest := Some(neighbours[i].addr);
          }
          i := i + 1;
        }
        assert neighbours[..|neighbours|] == neighbours;
        if dest.Some? {
          Enqueue(Out(dest, Load(nodeList[0].load)));
        }
      }
    }

    /** The scan for parents: their flow becomes `flow`; the last one is the destination. */
    method FlowToParent(flow: int) returns (dest: Option<LinkId>)
      modifies this`neighbours
      ensures neighbours == SetParentFlow(old(neighbours), flow)
      ensures dest == Parent(old(neighbours))
    {
      dest := None;
      var i := 0;
      while i < |neighbours|
        invariant 0 <= i <= |neighbours| == |old(neighbours)|
        invariant dest == Parent(old(neighbours)[..i])
        invariant forall j :: 0 <= j < i ==>
                    neighbours[j] == if old(neighbours)[j].flag == 1 then old(neighbours)[j].(inOut := flow) else old(neighbours)[j]
        invariant forall j :: i <= j < |neighbours| ==> neighbours[j] == old(neighbours)[j]
      {
        assert old(neighbours)[..i + 1][..i] == old(neighbours)[..i];
        if neighbours[i].flag == 1 {
          neighbours := neighbours[i := neighbours[i].(inOut := flow)];
          dest := Some(neighbours[i].addr);
        }
        i := i + 1;
      }
      assert old(neighbours)[..|neighbours|] == old(neighbours);
    }

    /** The three branches on the load; each result is stored in a `short`. */
    static method ExtraOf(load: int) returns (extra: int)
      ensures extra == ToInt16(load - 100)
    {
      if load > 100 {
        extra := ToInt16(load - 100);
      } else {
        if load > 0 {
          extra := ToInt16(load - 100);
        } else {
          extra := ToInt16(-load + 100);
          ToInt16Mod(-load + 100);
          ToInt16Congruent(-extra, load - 100);
          extra := ToInt16(-extra);
        }
      }
    }

    method KeepOnlyHundred()
      requires nodeList != []
      modifies this`nodeList
      ensures nodeList != [] && State() == KeepHundred(old(State()))
    {
      if !isRoot {
        nodeList := [nodeList[0].(load := 100)] + nodeList[1..];
      }
    }

    /** What is above 100 leaves the node; what is missing is asked for. */
    method TakeExtra() returns (extra: int)
      requires nodeList != []
      modifies this`extraLoad, this`nodeList
      ensures extra == ToInt16(old(nodeList)[0].load - 100)
      ensures nodeList != [] && State() == KeepHundred(old(State())).(extraLoad := extra)
    {
      extra := ExtraOf(nodeList[0].load);
      KeepOnlyHundred();
      extraLoad := extra;
    }

    /** iotorii_handle_share_upstream_timer */
    method HandleShareUpstreamTimer()
      requires timerArmed <==> payloadEntries != []
      requires nodeList != []
      modifies this`payloadEntries, this`timerArmed, this`extraLoad, this`nodeList, this`neighbours
      ensures timerArmed <==> payloadEntries != []
      ensures nodeList != [] && SameAddrs(old(neighbours), neighbours)
      ensures State() == ShareTimer(old(State())).node
      ensures payloadEntries == old(payloadEntries) + ShareTimer(old(State())).outs
    {
      var extra := TakeExtra();
      var dest := FlowToParent(ToInt16(-extra));
      Enqueue(Out(dest, Share(extra)));
    }

    /** The do-while of iotorii_send_sethlmac with its 8-bit index: one pass per slot, or a single one without room for two records. */
    method EnqueueSetHlmacs(slots: seq<Option<Nbr>>, addr: Addr, ts: nat)
      requires timerArmed <==> payloadEntries != []
      requires 0 < |slots| <= 255 && forall i :: 0 <= i < |slots| ==> slots[i].Some?
      requires Roomy(addr) ==> |slots| <= 254
      modifies this`payloadEntries, this`timerArmed
      ensures timerArmed <==> payloadEntries != []
      ensures payloadEntries == old(payloadEntries) + FirstMsgs(slots, if Roomy(addr) then |slots| else 1, addr, ts)
    {
      var i: Byte := 1;
      var goesOn := true;
      ghost var pass := 0;
      while goesOn
        invariant pass <= |slots| && i == SendIndex(pass)
        invariant goesOn <==> pass == 0 || (Roomy(addr) && GoesOn(pass, |slots|))
        invariant !Roomy(addr) ==> pass <= 1
        invariant timerArmed <==> payloadEntries != []
        invariant payloadEntries == old(payloadEntries) + FirstMsgs(slots, pass, addr, ts)
        decreases |slots| - pass
      {
        SlotSent(slots, pass, addr, ts);
        i := SendPass(slots, pass, i, addr, ts);
        pass := pass + 1;
        goesOn := Roomy(addr) && i <= |slots|;
      }
    }

    /** One pass: the record is taken from the index before it is counted up, the destination from the one after. */
    method SendPass(slots: seq<Option<Nbr>>, ghost pass: nat, i: Byte, addr: Addr, ts: nat) returns (next: Byte)
      requires timerArmed <==> payloadEntries != []
      requires pass < |slots| && pass < 254 && slots[pass].Some? && i == SendIndex(pass)
      modifies this`payloadEntries, this`timerArmed
      ensures timerArmed && next == SendIndex(pass + 1)
      ensures payloadEntries == old(payloadEntries) + [MsgFor(slots[pass].value, addr, ts)]
    {
      var id := slots[i - 1].value.id;
      next := (i + 1) % 256;
      Enqueue(Out(Some(slots[next - 2].value.addr), SetHlmac(ts, addr, id)));
    }

    /** The messages for the first `k` slots. */
    static function FirstMsgs(slots: seq<Option<Nbr>>, k: nat, addr: Addr, ts: nat): (r: seq<Out>)
      requires k <= |slots| && forall i :: 0 <= i < |slots| ==> slots[i].Some?
      ensures |r| == k && forall j :: 0 <= j < k ==> r[j] == MsgFor(slots[j].value, addr, ts)
    {
      seq(k, j requires 0 <= j < k => MsgFor(slots[j].value, addr, ts))
    }

    /** One more slot is one more message. */
    lemma SlotSent(slots: seq<Option<Nbr>>, k: nat, addr: Addr, ts: nat)
      requires k < |slots| && forall i :: 0 <= i < |slots| ==> slots[i].Some?
      ensures FirstMsgs(slots, k + 1, addr, ts) == FirstMsgs(slots, k, addr, ts) + [MsgFor(slots[k].value, addr, ts)]
    {
    }

    /** ... in the order of the slots. */
    lemma FirstMsgsAre(slots: seq<Option<Nbr>>, k: nat, addr: Addr, ts: nat)
      requires k <= |slots| && forall i :: 0 <= i < |slots| ==> slots[i].Some?
      ensures FirstMsgs(slots, k, addr, ts) == Msgs(Values(slots[..k]), addr, ts)
    {
      ValuesAll(slots[..k]);
    }

    /** What iotorii_send_sethlmac may queue for the wanted messages `all`. */
    ghost predicate Sendable(sent: seq<Out>, all: seq<Out>, addr: Addr)
    {
      if all == [] || maxPayload <= 0 || maxPayload < |addr| + 2 + macLen then sent == []
      else if !Roomy(addr) then |sent| == 1 && sent[0] in all
      else multiset(sent) == multiset(all)
    }

    /** Whether list_this_node_entry is reached. */
    predicate ListsEntry(all: seq<Out>, addr: Addr)
    {
      maxPayload > 0 && (all == [] || maxPayload >= |addr| + 2 + macLen)
    }

    /**
     * iotorii_send_sethlmac: one message per neighbour but the sender, in random order. A
     * payload without room for two records sends one message only, and one without room
     * for any record sends nothing and leaves the node without an entry in node_list. The 8-bit
     * count makes a node with 256 neighbours besides the sender take itself for a leaf; with
     * 255 and room for two records the 8-bit index keeps the loop from ending.
     */
    method SendSetHlmac(addr: Addr, sender: LinkId, ts: nat, draw: int)
      requires numberOfNeighbours == |neighbours| <= 256 && Distinct(neighbours)
      requires timerArmed <==> payloadEntries != []
      requires Roomy(addr) ==> |Wanted(neighbours, sender, addr, ts)| <= 254
      modifies this`payloadEntries, this`timerArmed, this`nodeList
      ensures timerArmed <==> payloadEntries != []
      ensures old(payloadEntries) <= payloadEntries
      ensures Sendable(payloadEntries[|old(payloadEntries)|..], Wanted(neighbours, sender, addr, ts), addr)
      ensures nodeList == old(nodeList) +
              if ListsEntry(Wanted(neighbours, sender, addr, ts), addr) then [ThisNode(addr, draw)] else []
    {
      if maxPayload <= 0 {
        return;
      }
      var count := CountOthers(neighbours, sender, numberOfNeighbours);
      WantedCount(neighbours, sender, addr, ts);
      if count > 0 {
        var slots := PlaceRandomly(neighbours, sender, count);
        if maxPayload >= |addr| + 2 + macLen {
          SendInOrder(slots[..], addr, sender, ts);
          nodeList := nodeList + [ThisNode(addr, draw)];
        }
      } else {
        nodeList := nodeList + [ThisNode(addr, draw)];
      }
    }

    /** With room for two records every wanted message is queued. */
    method SendToAll(addr: Addr, sender: LinkId, ts: nat, draw: int)
      requires numberOfNeighbours == |neighbours| <= 256 && Distinct(neighbours)
      requires timerArmed <==> payloadEntries != []
      requires Roomy(addr) && SendEnds(neighbours, sender)
      modifies this`payloadEntries, this`timerArmed, this`nodeList
      ensures timerArmed <==> payloadEntries != []
      ensures nodeList != [] && State() == WithEntry(old(State()), addr, draw)
      ensures Adds(old(payloadEntries), payloadEntries, SetHlmacs(neighbours, sender, addr, ts))
    {
      WantedCount(neighbours, sender, addr, ts);
      SendSetHlmac(addr, sender, ts, draw);
    }

    /** The filling loop of iotorii_send_sethlmac over the random order. */
    method SendInOrder(slots: seq<Option<Nbr>>, addr: Addr, sender: LinkId, ts: nat)
      requires timerArmed <==> payloadEntries != []
      requires maxPayload > 0 && maxPayload >= |addr| + 2 + macLen
      requires 0 < |slots| <= (if Roomy(addr) then 254 else 255) && forall i :: 0 <= i < |slots| ==> slots[i].Some?
      requires multiset(Values(slots)) == multiset(Others(neighbours, sender))
      modifies this`payloadEntries, this`timerArmed
      ensures timerArmed <==> payloadEntries != []
      ensures old(payloadEntries) <= payloadEntries
      ensures Sendable(payloadEntries[|old(payloadEntries)|..], SetHlmacs(neighbours, sender, addr, ts), addr)
    {
      ghost var upTo := if Roomy(addr) then |slots| else 1;
      EnqueueSetHlmacs(slots, addr, ts);
      SentIsRight(slots, upTo, neighbours, sender, addr, ts);
      FirstMsgsAre(slots, upTo, addr, ts);
      assert payloadEntries[|old(payloadEntries)|..] == Msgs(Values(slots[..upTo]), addr, ts);
    }

    /** Counts down both counters, saturating at 0. */
    method CountDownHijos()
      modifies this`nHijosLoad, this`nHijosShare
      ensures State() == CountDown(old(State()))
    {
      if nHijosLoad > 0 {
        nHijosLoad := nHijosLoad - 1;
      }
      if nHijosShare > 0 {
        nHijosShare := nHijosShare - 1;
      }
    }

    /** Sends the Load once nothing is awaited. */
    method CheckLoad()
      requires timerArmed <==> payloadEntries != []
      modifies this`payloadEntries, this`timerArmed, this`sentLoad
      ensures timerArmed <==> payloadEntries != []
      ensures State() == SendLoadIfDone(old(State())).node
      ensures payloadEntries == old(payloadEntries) + SendLoadIfDone(old(State())).outs
    {
      if !edge && nHijosLoad == 0 && !sentLoad {
        HandleLoadTimer();
        sentLoad := true;
      }
    }

    /** Sends the Share once nothing is awaited. */
    method CheckShare()
      requires timerArmed <==> payloadEntries != []
      requires nodeList != []
      modifies this`payloadEntries, this`timerArmed, this`extraLoad, this`nodeList, this`neighbours, this`sentShare
      ensures timerArmed <==> payloadEntries != []
      ensures nodeList != [] && SameAddrs(old(neighbours), neighbours)
      ensures State() == SendShareIfDone(old(State())).node
      ensures payloadEntries == old(payloadEntries) + SendShareIfDone(old(State())).outs
    {
      if !edge && nHijosShare == 0 && !sentShare {
        HandleShareUpstreamTimer();
        sentShare := true;
      }
    }

    /** A leaf sends its Load and its Share at once. */
    method SendBothMessages()
      requires timerArmed <==> payloadEntries != []
      requires nodeList != []
      modifies this`payloadEntries, this`timerArmed, this`extraLoad, this`nodeList, this`neighbours
      modifies this`sentLoad, this`sentShare
      ensures timerArmed <==> payloadEntries != []
      ensures nodeList != [] && SameAddrs(old(neighbours), neighbours)
      ensures State() == SendBoth(old(State())).node
      ensures payloadEntries == old(payloadEntries) + SendBoth(old(State())).outs
    {
      HandleLoadTimer();
      HandleShareUpstreamTimer();
      sentLoad := true;
      sentShare := true;
    }

    method CheckEdge()
      requires timerArmed <==> payloadEntries != []
      requires nodeList != []
      modifies this`payloadEntries, this`timerArmed, this`extraLoad, this`nodeList, this`neighbours
      modifies this`edge, this`sentLoad, this`sentShare
      ensures timerArmed <==> payloadEntries != []
      ensures nodeList != [] && SameAddrs(old(neighbours), neighbours)
      ensures State() == BecomeEdge(old(State())).node
      ensures payloadEntries == old(payloadEntries) + BecomeEdge(old(State())).outs
    {
      if numberOfNeighboursFlag == 0 {
        edge := true;
        SendBothMessages();
      }
    }

    /** The root's convergence test. */
    method CheckConverged()
      modifies this`hasConverged
      ensures State() == Converge(old(State()))
    {
      if isRoot {
        if nHijosLoad == 0 && nHijosShare == 0 && !hasConverged {
          hasConverged := true;
        }
      }
    }

    /** The scan that marks the sender of a SetHLMAC. */
    method MarkSender(sender: LinkId, flag: int)
      modifies this`neighbours
      ensures neighbours == SetFlag(old(neighbours), sender, flag)
    {
      var i := 0;
      while i < |neighbours|
        invariant 0 <= i <= |neighbours| == |old(neighbours)|
        invariant forall j :: 0 <= j < i ==>
                    neighbours[j] == if old(neighbours)[j].addr == sender then old(neighbours)[j].(flag := flag) else old(neighbours)[j]
        invariant forall j :: i <= j < |neighbours| ==> neighbours[j] == old(neighbours)[j]
      {
        if neighbours[i].addr == sender {
          neighbours := neighbours[i := neighbours[i].(flag := flag)];
        }
        i := i + 1;
      }
    }

    method RecordLoad(i: nat, value: int)
      requires i < |neighbours|
      modifies this`neighbours, this`nHijosLoad
      ensures State() == StoreLoad(old(State()), i, value)
      ensures SameAddrs(old(neighbours), neighbours)
      ensures Distinct(neighbours) <==> Distinct(old(neighbours))
      ensures HasNbr(neighbours, self) <==> HasNbr(old(neighbours), self)
    {
      neighbours := neighbours[i := neighbours[i].(load := value)];
      if neighbours[i].flag == 0 && !edge && nHijosLoad != 0 {
        nHijosLoad := nHijosLoad - 1;
      }
      SameAddrsKeep(old(neighbours), neighbours, self);
      SameAddrsKeep(neighbours, old(neighbours), self);
    }

    /** What the Load branch does at the entry of the sender. */
    method LoadFrom(i: nat, value: int)
      requires Valid() && i < |neighbours|
      modifies this`neighbours, this`nHijosLoad, this`hasConverged, this`payloadEntries, this`timerArmed, this`sentLoad
      ensures Valid()
      ensures State() == OnLoad(old(State()), old(neighbours)[i].addr, value).node
      ensures payloadEntries == old(payloadEntries) + OnLoad(old(State()), old(neighbours)[i].addr, value).outs
    {
      IndexIs(neighbours, i);
      RecordLoad(i, value);
      if isRoot {
        CheckConverged();
      } else {
        CheckLoad();
      }
    }

    /** The Load branch of iotorii_handle_incoming_sethlmac_or_load; addresses are distinct, so one entry matches. */
    method HandleIncomingLoad(sender: LinkId, value: int)
      requires Valid()
      modifies this`neighbours, this`nHijosLoad, this`hasConverged, this`payloadEntries, this`timerArmed, this`sentLoad
      ensures Valid()
      ensures State() == OnLoad(old(State()), sender, value).node
      ensures payloadEntries == old(payloadEntries) + OnLoad(old(State()), sender, value).outs
    {
      var i := 0;
      while i < |neighbours|
        invariant 0 <= i <= |neighbours| && State() == old(State()) && unchanged(this)
        invariant forall j :: 0 <= j < i ==> neighbours[j].addr != sender
      {
        if neighbours[i].addr == sender {
          LoadFrom(i, value);
          return;
        }
        i := i + 1;
      }
    }

    method RecordFlow(i: nat, value: int)
      requires i < |neighbours|
      modifies this`neighbours
      ensures SameAddrs(old(neighbours), neighbours)
      ensures Distinct(neighbours) <==> Distinct(old(neighbours))
      ensures HasNbr(neighbours, self) <==> HasNbr(old(neighbours), self)
      ensures State() == StoreFlow(old(State()), i, value)
    {
      if value != 0 && neighbours[i].inOut == 0 {
        neighbours := neighbours[i := neighbours[i].(inOut := value)];
      }
      SameAddrsKeep(old(neighbours), neighbours, self);
      SameAddrsKeep(neighbours, old(neighbours), self);
    }

    method RecordShare(value: int)
      requires nodeList != [] && nHijosShare != 0
      modifies this`nodeList, this`nHijosShare
      ensures State() == AddShare(old(State()), value)
    {
      nodeList := [nodeList[0].(load := nodeList[0].load + value)] + nodeList[1..];
      nHijosShare := nHijosShare - 1;
    }

    /** An awaited Share. */
    method TakeShare(value: int)
      requires Valid() && nHijosShare != 0
      modifies this`neighbours, this`nodeList, this`nHijosShare, this`hasConverged
      modifies this`payloadEntries, this`timerArmed, this`sentShare, this`extraLoad
      ensures Valid() && SameAddrs(old(neighbours), neighbours)
      ensures State() == AbsorbShare(old(State()), value).node
      ensures payloadEntries == old(payloadEntries) + AbsorbShare(old(State()), value).outs
    {
      RecordShare(value);
      if isRoot {
        CheckConverged();
      } else {
        CheckShare();
      }
      SameAddrsKeep(old(neighbours), neighbours, self);
    }

    /** What the Share branch does at the entry of the sender. */
    method ShareFrom(i: nat, value: int)
      requires Valid() && i < |neighbours|
      modifies this`neighbours, this`nodeList, this`nHijosShare, this`hasConverged
      modifies this`payloadEntries, this`timerArmed, this`sentShare, this`extraLoad
      ensures Valid()
      ensures State() == OnShare(old(State()), old(neighbours)[i].addr, value).node
      ensures payloadEntries == old(payloadEntries) + OnShare(old(State()), old(neighbours)[i].addr, value).outs
    {
      IndexIs(neighbours, i);
      if neighbours[i].flag == 0 && !edge && nHijosShare != 0 {
        TakeShare(value);
      }
      RecordFlow(i, value);
    }

    /** The Share branch of iotorii_handle_incoming_sethlmac_or_load; addresses are distinct, so one entry matches. */
    method HandleIncomingShare(sender: LinkId, value: int)
      requires Valid()
      modifies this`neighbours, this`nodeList, this`nHijosShare, this`hasConverged
      modifies this`payloadEntries, this`timerArmed, this`sentShare, this`extraLoad
      ensures Valid()
      ensures State() == OnShare(old(State()), sender, value).node
      ensures payloadEntries == old(payloadEntries) + OnShare(old(State()), sender, value).outs
    {
      var i := 0;
      while i < |neighbours|
        invariant 0 <= i <= |neighbours| && State() == old(State()) && unchanged(this)
        invariant forall j :: 0 <= j < i ==> neighbours[j].addr != sender
      {
        if neighbours[i].addr == sender {
          ShareFrom(i, value);
          return;
        }
        i := i + 1;
      }
    }

    /** The two tests, then the root's convergence test. */
    method CheckDone()
      requires timerArmed <==> payloadEntries != []
      requires nodeList != []
      modifies this`payloadEntries, this`timerArmed, this`extraLoad, this`nodeList, this`neighbours
      modifies this`sentLoad, this`sentShare, this`hasConverged
      ensures timerArmed <==> payloadEntries != []
      ensures nodeList != [] && SameAddrs(old(neighbours), neighbours)
      ensures State() == SendIfDone(old(State())).node
      ensures payloadEntries == old(payloadEntries) + SendIfDone(old(State())).outs
    {
      CheckLoad();
      CheckShare();
      CheckConverged();
    }

    /** The sends after a SetHLMAC that was offered to the table. */
    method FinishOffer()
      requires timerArmed <==> payloadEntries != []
      requires nodeList != []
      modifies this`payloadEntries, this`timerArmed, this`extraLoad, this`nodeList, this`neighbours
      modifies this`edge, this`sentLoad, this`sentShare, this`nHijosLoad, this`nHijosShare, this`hasConverged
      ensures timerArmed <==> payloadEntries != []
      ensures nodeList != [] && SameAddrs(old(neighbours), neighbours)
      ensures State() == AfterOffer(old(State())).node
      ensures payloadEntries == old(payloadEntries) + AfterOffer(old(State())).outs
    {
      CountDownHijos();
      CheckEdgeAndDone();
    }

    method CheckEdgeAndDone()
      requires timerArmed <==> payloadEntries != []
      requires nodeList != []
      modifies this`payloadEntries, this`timerArmed, this`extraLoad, this`nodeList, this`neighbours
      modifies this`edge, this`sentLoad, this`sentShare, this`hasConverged
      ensures timerArmed <==> payloadEntries != []
      ensures nodeList != [] && SameAddrs(old(neighbours), neighbours)
      ensures State() == SendOffer(old(State())).node
      ensures payloadEntries == old(payloadEntries) + SendOffer(old(State())).outs
    {
      ghost var n := State();
      CheckEdge();
      assert State() == BecomeEdge(n).node;
      CheckDone();
    }

    /** The sends after a SetHLMAC that was not offered. */
    method FinishRejection()
      requires timerArmed <==> payloadEntries != []
      requires nodeList != []
      modifies this`payloadEntries, this`timerArmed, this`extraLoad, this`nodeList, this`neighbours
      modifies this`sentLoad, this`sentShare, this`nHijosLoad, this`nHijosShare, this`hasConverged
      ensures timerArmed <==> payloadEntries != []
      ensures nodeList != [] && SameAddrs(old(neighbours), neighbours)
      ensures State() == AfterRejection(old(State())).node
      ensures payloadEntries == old(payloadEntries) + AfterRejection(old(State())).outs
    {
      CountDownHijos();
      CheckDone();
    }

    method ClearNodeList()
      modifies this`nodeList
      ensures nodeList == []
    {
      while nodeList != []
        decreases |nodeList|
      {
        nodeList := nodeList[..|nodeList| - 1];
      }
    }

    method AwaitEveryone()
      requires numberOfNeighbours == |neighbours|
      modifies this`nHijosLoad, this`nHijosShare, this`neighbours, this`numberOfNeighboursFlag
      ensures State() == AwaitAll(old(State()))
      ensures SameAddrs(old(neighbours), neighbours)
    {
      nHijosShare := numberOfNeighbours % 256;
      nHijosLoad := numberOfNeighbours % 256;
      NeighboursFlag();
      numberOfNeighboursFlag := numberOfNeighbours;
    }

    /** The round reset on the first accepted address of a timestamp. */
    method ResetRound(ts: nat)
      requires numberOfNeighbours == |neighbours|
      modifies this`lastTimestamp, this`neighbours, this`numberOfNeighboursFlag, this`nHijosLoad, this`nHijosShare
      modifies this`edge, this`nodeList, this`sentLoad, this`sentShare
      ensures State() == Reset(old(State()), ts)
      ensures SameAddrs(old(neighbours), neighbours)
    {
      if lastTimestamp < ts || lastTimestamp == 0 {
        lastTimestamp := ts;
        AwaitEveryone();
        edge := false;
        ClearNodeList();
        sentLoad := false;
        sentShare := false;
      }
    }

    /** Everything is awaited again, and the address goes to the other neighbours. */
    method AcceptAddress(sender: LinkId, addr: Addr, ts: nat, draw: int)
      requires numberOfNeighbours == |neighbours| <= 256 && Distinct(neighbours)
      requires timerArmed <==> payloadEntries != []
      requires Roomy(addr) && SendEnds(neighbours, sender)
      modifies this`lastTimestamp, this`neighbours, this`numberOfNeighboursFlag, this`nHijosLoad, this`nHijosShare
      modifies this`edge, this`nodeList, this`sentLoad, this`sentShare, this`payloadEntries, this`timerArmed
      ensures timerArmed <==> payloadEntries != []
      ensures State() == Accept(old(State()), addr, ts, draw)
      ensures nodeList != [] && SameAddrs(old(neighbours), neighbours)
      ensures Adds(old(payloadEntries), payloadEntries, SetHlmacs(old(neighbours), sender, addr, ts))
    {
      ResetRound(ts);
      SendStillEnds(old(neighbours), neighbours, sender);
      SendToAll(addr, sender, ts, draw);
      SetHlmacsIgnoreFlags(old(neighbours), sender, addr, ts);
    }

    method MarkOffer(sender: LinkId, added: bool)
      modifies this`neighbours, this`numberOfNeighboursFlag
      ensures State() == Mark(old(State()), sender, added)
      ensures SameAddrs(old(neighbours), neighbours)
    {
      MarkSender(sender, if added then 1 else -1);
      numberOfNeighboursFlag := numberOfNeighboursFlag - 1;
    }

    method OfferToTable(addr: Addr, ts: nat) returns (added: bool)
      requires table.Valid() && (table.maxHlmac == -1 || table.maxHlmac >= 1)
      modifies table
      ensures table.Valid()
      ensures State() == WithTable(old(State()), addr, ts)
      ensures added <==> HasRoom(Kept(old(State()).table, ts), old(State()).maxHlmac)
      ensures !added ==> old(table.entries) != []
    {
      added := table.Add(addr, ts);
    }

    /** The first half of the SetHLMAC branch: table, reset, forwarding and marking. */
    method TakeOffer(sender: LinkId, addr: Addr, ts: nat, draw: int)
      requires Valid() && |addr| > 0
      requires HasRoom(Kept(table.entries, ts), table.maxHlmac) ==> Roomy(addr) && SendEnds(neighbours, sender)
      modifies this`lastTimestamp, this`neighbours, this`numberOfNeighboursFlag, this`nHijosLoad, this`nHijosShare
      modifies this`edge, this`nodeList, this`sentLoad, this`sentShare, this`payloadEntries, this`timerArmed, table
      ensures table.Valid() && (timerArmed <==> payloadEntries != [])
      ensures nodeList != [] && SameAddrs(old(neighbours), neighbours)
      ensures State() == Offer(old(State()), sender, addr, ts, draw)
      ensures Adds(old(payloadEntries), payloadEntries, if HasRoom(Kept(old(State()).table, ts), old(State()).maxHlmac) then SetHlmacs(old(neighbours), sender, addr, ts) else [])
    {
      var added := OfferToTable(addr, ts);
      if added {
        AcceptAddress(sender, addr, ts, draw);
      }
      MarkOffer(sender, added);
    }

    /** Two batches queued one after the other. */
    lemma Queued(before: seq<Out>, middle: seq<Out>, after: seq<Out>, forwarded: seq<Out>, sends: seq<Out>)
      requires Adds(before, middle, forwarded) && after == middle + sends
      ensures Adds(before, after, forwarded + sends)
    {
      assert after[|before|..] == middle[|before|..] + sends;
    }

    /** An address that is offered to the table, from the table to the last send. */
    method FollowOffer(sender: LinkId, addr: Addr, ts: nat, draw: int)
      requires Valid() && |addr| > 0
      requires HasRoom(Kept(table.entries, ts), table.maxHlmac) ==> Roomy(addr) && SendEnds(neighbours, sender)
      modifies this`lastTimestamp, this`neighbours, this`numberOfNeighboursFlag, this`nHijosLoad, this`nHijosShare
      modifies this`edge, this`nodeList, this`sentLoad, this`sentShare, this`payloadEntries, this`timerArmed, table
      modifies this`extraLoad, this`hasConverged
      ensures table.Valid() && (timerArmed <==> payloadEntries != [])
      ensures nodeList != [] && SameAddrs(old(neighbours), neighbours)
      ensures State() == OnOffered(old(State()), sender, addr, ts, draw).node
      ensures Adds(old(payloadEntries), payloadEntries, OnOffered(old(State()), sender, addr, ts, draw).outs)
    {
      ghost var n, before := State(), payloadEntries;
      TakeOffer(sender, addr, ts, draw);
      ghost var middle, m := payloadEntries, State();
      FinishOffer();
      Queued(before, middle, payloadEntries,
             if HasRoom(Kept(n.table, ts), n.maxHlmac) then SetHlmacs(n.nbrs, sender, addr, ts) else [],
             AfterOffer(m).outs);
    }

    /** Whether iotorii_handle_incoming_sethlmac_or_load offers the address to the table. */
    method CheckOffered(addr: Addr, ts: nat) returns (offered: bool)
      requires Valid() && 0 < |addr| < 256
      ensures offered <==> Offered(State(), addr, ts)
      ensures !offered ==> nodeList != []
    {
      offered := ts > lastTimestamp;
      if !offered {
        var loops := table.HasLoopCheck(addr);
        offered := !loops && ts == lastTimestamp;
      }
    }

    /** Offers the address to the table or rejects it, and sends what is due. */
    method DecideSetHlmac(sender: LinkId, addr: Addr, ts: nat, draw: int)
      requires Valid() && 0 < |addr| < 256 && Forwards(sender, addr, ts)
      modifies this`lastTimestamp, this`neighbours, this`numberOfNeighboursFlag, this`nHijosLoad, this`nHijosShare
      modifies this`edge, this`nodeList, this`sentLoad, this`sentShare, this`payloadEntries, this`timerArmed, table
      modifies this`extraLoad, this`hasConverged
      ensures table.Valid() && (timerArmed <==> payloadEntries != [])
      ensures nodeList != [] && SameAddrs(old(neighbours), neighbours)
      ensures State() == OnSetHlmac(old(State()), sender, addr, ts, draw).node
      ensures Adds(old(payloadEntries), payloadEntries, OnSetHlmac(old(State()), sender, addr, ts, draw).outs)
    {
      var offered := CheckOffered(addr, ts);
      if offered {
        FollowOffer(sender, addr, ts, draw);
      } else {
        FinishRejection();
        AddsExactly(old(payloadEntries), payloadEntries, AfterRejection(old(State())).outs);
      }
    }

    /** The SetHLMAC branch of iotorii_handle_incoming_sethlmac_or_load. */
    method HandleIncomingSetHlmac(sender: LinkId, addr: Addr, ts: nat, draw: int)
      requires Valid() && 0 < |addr| < 256 && Forwards(sender, addr, ts)
      modifies this`lastTimestamp, this`neighbours, this`numberOfNeighboursFlag, this`nHijosLoad, this`nHijosShare
      modifies this`edge, this`nodeList, this`sentLoad, this`sentShare, this`payloadEntries, this`timerArmed, table
      modifies this`extraLoad, this`hasConverged
      ensures Valid()
      ensures State() == OnSetHlmac(old(State()), sender, addr, ts, draw).node
      ensures Adds(old(payloadEntries), payloadEntries, OnSetHlmac(old(State()), sender, addr, ts, draw).outs)
    {
      DecideSetHlmac(sender, addr, ts, draw);
      SameAddrsKeep(old(neighbours), neighbours, self);
    }

    /** A payload that assigns no address to this node is told by its length. */
    method HandleShortPayload(data: Wire.Bytes, sender: LinkId)
      requires Valid()
      modifies this
      ensures Valid()
      ensures State() == Dispatch.OnPacket(old(State()), sender, Wire.Short(data), 0).node
      ensures Adds(old(payloadEntries), payloadEntries, Dispatch.OnPacket(old(State()), sender, Wire.Short(data), 0).outs)
    {
      if |data| == 4 {
        HandleIncomingLoad(sender, Wire.BytesI32(data));
        AddsExactly(old(payloadEntries), payloadEntries, OnLoad(old(State()), sender, Wire.BytesI32(data)).outs);
      } else if |data| == 2 {
        HandleIncomingShare(sender, Wire.BytesI16(data));
        AddsExactly(old(payloadEntries), payloadEntries, OnShare(old(State()), sender, Wire.BytesI16(data)).outs);
      }
    }

    /** A payload that is no Hello: the length tests of iotorii_handle_incoming_sethlmac_or_load. */
    method HandleIncomingData(data: Wire.Bytes, beyond: Wire.Beyond, mac: Wire.Bytes, sender: LinkId, draw: int)
      requires Valid() && |mac| > 0 && data != [] && Handles(sender, Wire.Parse(data, beyond, mac))
      modifies this, table
      ensures Valid()
      ensures State() == Dispatch.OnPacket(old(State()), sender, Wire.Parse(data, beyond, mac), draw).node
      ensures Adds(old(payloadEntries), payloadEntries, Dispatch.OnPacket(old(State()), sender, Wire.Parse(data, beyond, mac), draw).outs)
    {
      var received := Wire.ExtractAddress(data, beyond, mac);
      var ts := Wire.ExtractTimestamp(data, beyond);
      Wire.U32RoundTrip(ts);
      var unspecified := received.IsUnspecified();
      if unspecified {
        HandleShortPayload(data, sender);
      } else {
        var ids := received.Copy();
        HandleIncomingSetHlmac(sender, ids, ts, draw);
      }
    }

    /** iotorii_operation */
    method Operation(data: Wire.Bytes, beyond: Wire.Beyond, mac: Wire.Bytes, sender: LinkId, draw: int)
      requires Valid() && |mac| > 0 && sender != self && Handles(sender, Wire.Parse(data, beyond, mac))
      modifies this, table
      ensures Valid()
      ensures State() == Dispatch.OnPacket(old(State()), sender, Wire.Parse(data, beyond, mac), draw).node
      ensures Adds(old(payloadEntries), payloadEntries, Dispatch.OnPacket(old(State()), sender, Wire.Parse(data, beyond, mac), draw).outs)
    {
      if |data| == 0 {
        HandleIncomingHello(sender);
      } else {
        HandleIncomingData(data, beyond, mac, sender, draw);
      }
    }

    method NextTimestamp()
      requires rootTimestamp >= -1
      modifies this`rootTimestamp, this`hasConverged
      ensures State() == old(State()).(rootTimestamp := old(rootTimestamp) + 1, hasConverged := false)
    {
      rootTimestamp := rootTimestamp + 1;
      hasConverged := false;
    }

    method StartRound(draw: int)
      requires table.Valid() && (table.maxHlmac == -1 || table.maxHlmac >= 1) && rootTimestamp >= -1
      requires numberOfNeighbours == |neighbours| <= 256 && Distinct(neighbours)
      requires timerArmed <==> payloadEntries != []
      requires Roomy([1]) && SendEnds(neighbours, self)
      modifies this`rootTimestamp, this`hasConverged, this`nodeList, this`payloadEntries, this`timerArmed, table
      ensures table.Valid() && (timerArmed <==> payloadEntries != []) && nodeList != []
      ensures State() == OpenRound(old(State()), draw)
      ensures rootTimestamp == old(rootTimestamp) + 1
      ensures Adds(old(payloadEntries), payloadEntries, SetHlmacs(neighbours, self, [1], old(rootTimestamp) + 1))
    {
      NextTimestamp();
      var added := OfferToTable([1], rootTimestamp);
      SendToAll([1], self, rootTimestamp, draw);
    }

    method OpenAndAwait(draw: int)
      requires table.Valid() && (table.maxHlmac == -1 || table.maxHlmac >= 1) && rootTimestamp >= -1
      requires numberOfNeighbours == |neighbours| <= 256 && Distinct(neighbours)
      requires timerArmed <==> payloadEntries != []
      requires Roomy([1]) && SendEnds(neighbours, self)
      modifies this`rootTimestamp, this`hasConverged, this`nodeList, this`payloadEntries, this`timerArmed, table
      modifies this`nHijosLoad, this`nHijosShare, this`neighbours, this`numberOfNeighboursFlag
      ensures table.Valid() && (timerArmed <==> payloadEntries != []) && nodeList != []
      ensures rootTimestamp == old(rootTimestamp) + 1 && SameAddrs(old(neighbours), neighbours)
      ensures State() == OnRootTimer(old(State()), draw).node
      ensures Adds(old(payloadEntries), payloadEntries, OnRootTimer(old(State()), draw).outs)
    {
      StartRound(draw);
      AwaitEveryone();
    }

    /** iotorii_handle_sethlmac_timer */
    method HandleSetHlmacTimer(draw: int)
      requires Valid() && |neighbours| <= 254 && Roomy([1])
      modifies this`rootTimestamp, this`hasConverged, this`nodeList, this`payloadEntries, this`timerArmed, table
      modifies this`nHijosLoad, this`nHijosShare, this`neighbours, this`numberOfNeighboursFlag
      ensures Valid()
      ensures State() == OnRootTimer(old(State()), draw).node
      ensures Adds(old(payloadEntries), payloadEntries, OnRootTimer(old(State()), draw).outs)
    {
      OthersLength(neighbours, self);
      OpenAndAwait(draw);
      SameAddrsKeep(old(neighbours), neighbours, self);
    }

    /** Clears transmission_delay, hands the packet over, and looks whether a delay was drawn. */
    static method HandToCsma(csma: Csma.CsmaOutput, r: Csma.Request, seed: Byte, rnd: nat) returns (scheduled: bool)
      requires csma.neighborMemb >= |csma.neighbourList|
      modifies csma
      ensures csma.S() == Csma.Submit(csma.lim, old(csma.S()).(delay := Csma.NOT_SCHEDULED), r, seed, rnd)
      ensures scheduled <==> csma.transmissionDelay != Csma.NOT_SCHEDULED
    {
      csma.transmissionDelay := Csma.NOT_SCHEDULED;
      csma.OutputPacket(r, seed, rnd);
      scheduled := csma.transmissionDelay != Csma.NOT_SCHEDULED;
    }

    /**
     * iotorii_handle_send_message_timer: the first entry is handed to CSMA. It stays first if
     * CSMA scheduled nothing, which shows as an untouched transmission_delay. The timer is armed
     * again exactly when something is left. `unset` is what an unset destination holds.
     */
    method HandleSendMessageTimer(csma: Csma.CsmaOutput, id: nat, unset: LinkId, attr: nat, bufGiven: bool, seed: Byte, rnd: nat)
      requires Valid() && timerArmed
      requires csma.neighborMemb >= |csma.neighbourList|
      modifies this`payloadEntries, this`timerArmed, csma
      ensures Valid() && State() == old(State())
      ensures csma.S() == Csma.Submit(csma.lim, old(csma.S()).(delay := Csma.NOT_SCHEDULED),
                                      Csma.Request(id, Destination(old(payloadEntries)[0], unset), attr, bufGiven), seed, rnd)
      ensures payloadEntries == if csma.transmissionDelay == Csma.NOT_SCHEDULED then old(payloadEntries) else old(payloadEntries)[1..]
    {
      var entry := payloadEntries[0];
      payloadEntries := payloadEntries[1..];
      timerArmed := false;
      var scheduled := HandToCsma(csma, Csma.Request(id, Destination(entry, unset), attr, bufGiven), seed, rnd);
      if !scheduled {
        timerArmed := true;
        payloadEntries := [entry] + payloadEntries;
      } else {
        if payloadEntries != [] {
          timerArmed := true;
        }
      }
    }

    lemma OneIsWanted(slots: seq<Option<Nbr>>, nbrs: seq<Nbr>, sender: LinkId, addr: Addr, ts: nat)
      requires |slots| > 0 && forall i :: 0 <= i < |slots| ==> slots[i].Some?
      requires multiset(Values(slots)) == multiset(Others(nbrs, sender))
      ensures MsgFor(slots[0].value, addr, ts) in SetHlmacs(nbrs, sender, addr, ts)
    {
      SetHlmacsAreMsgs(nbrs, sender, addr, ts);
      ValuesAll(slots);
      var others, x := Others(nbrs, sender), slots[0].value;
      assert Values(slots)[0] == x && x in multiset(Values(slots));
      assert x in others;
      var k :| 0 <= k < |others| && others[k] == x;
      assert Msgs(others, addr, ts)[k] == MsgFor(x, addr, ts);
    }

    lemma SentIsRight(slots: seq<Option<Nbr>>, upTo: nat, nbrs: seq<Nbr>, sender: LinkId, addr: Addr, ts: nat)
      requires |slots| > 0 && (upTo == |slots| || upTo == 1)
      requires forall i :: 0 <= i < |slots| ==> slots[i].Some?
      requires multiset(Values(slots)) == multiset(Others(nbrs, sender))
      ensures var sent := Msgs(Values(slots[..upTo]), addr, ts);
              var all := SetHlmacs(nbrs, sender, addr, ts);
              all != [] && (upTo == |slots| ==> multiset(sent) == multiset(all)) && (upTo == 1 ==> |sent| == 1 && sent[0] in all)
    {
      OneIsWanted(slots, nbrs, sender, addr, ts);
      if upTo == |slots| {
        SetHlmacsAreMsgs(nbrs, sender, addr, ts);
        assert slots[..upTo] == slots;
        MsgsPermute(Values(slots), Others(nbrs, sender), addr, ts);
      }
      if upTo == 1 {
        ValuesAll(slots[..1]);
      }
    }
  }
}
