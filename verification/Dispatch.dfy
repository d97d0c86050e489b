/** From bytes on the air to handlers: iotorii_operation and the length tests behind it. */
module Dispatch {
  import opened Types
  import opened NodeModel
  import Wire

  /** What a received packet does to the node. */
  function OnPacket(n: Node, sender: LinkId, packet: Wire.Incoming, draw: int): Res
    requires packet.SetHlmac? ==> |packet.address| > 0
  {
    match packet
    case Hello => Res(OnHello(n, sender), [])
    case SetHlmac(ts, addr) => OnSetHlmac(n, sender, addr, ts, draw)
    case Load(value) => OnLoad(n, sender, value)
    case Share(value) => OnShare(n, sender, value)
    case Ignored => Res(n, [])
  }

  /** The handler a queued message is meant for. */
  function OnMessage(n: Node, sender: LinkId, msg: Msg, draw: int): Res
  {
    match msg
    case SetHlmac(ts, prefix, id) => OnSetHlmac(n, sender, prefix + [id], ts, draw)
    case Load(value) => OnLoad(n, sender, value)
    case Share(value) => OnShare(n, sender, value)
  }

  /** The value fits the field it is sent in. */
  predicate Fits(msg: Msg)
  {
    match msg
    case SetHlmac(ts, prefix, _) => ts < 0x1_0000_0000 && |prefix| < 255
    case Load(value) => -0x8000_0000 <= value < 0x8000_0000
    case Share(value) => -32768 <= value <= 32767
  }

  /** The payload of a message for the neighbour with link address `mac`. */
  function Payload(msg: Msg, mac: Wire.Bytes): Wire.Bytes
    requires Fits(msg)
  {
    match msg
    case SetHlmac(ts, prefix, id) => Wire.Encode(ts, prefix, [Wire.Record(id, mac)])
    case Load(value) => Wire.I32Bytes(value)
    case Share(value) => Wire.I16Bytes(value)
  }

  /** A message does at its destination what its handler does, whatever lies in memory behind the packet. */
  lemma DeliveredToDestination(n: Node, sender: LinkId, msg: Msg, mac: Wire.Bytes, beyond: Wire.Beyond, draw: int)
    requires Fits(msg) && |mac| > 0 && mac != Wire.NullMac(|mac|)
    ensures var p := Wire.Parse(Payload(msg, mac), beyond, mac);
            && (p.SetHlmac? ==> |p.address| > 0)
            && OnPacket(n, sender, p, draw) == OnMessage(n, sender, msg, draw)
  {
    match msg {
      case SetHlmac(ts, prefix, id) =>
        var records := [Wire.Record(id, mac)];
        Wire.SetHlmacRoundTrip(ts, prefix, records, beyond, mac);
        assert records[0].mac == mac;
      case Load(value) =>
        Wire.ShortPayloadsRoundTrip(value, 0, beyond, mac);
      case Share(value) =>
        Wire.ShortPayloadsRoundTrip(0, value, beyond, mac);
    }
  }

  /** A SetHLMAC overheard by another node changes nothing there. */
  lemma OverheardIsIgnored(n: Node, sender: LinkId, msg: Msg, mac: Wire.Bytes, self: Wire.Bytes, beyond: Wire.Beyond, draw: int)
    requires Fits(msg) && msg.SetHlmac? && |mac| == |self| > 0 && mac != self && self != Wire.NullMac(|self|)
    ensures Wire.Parse(Payload(msg, mac), beyond, self) == Wire.Ignored
    ensures OnPacket(n, sender, Wire.Parse(Payload(msg, mac), beyond, self), draw) == Res(n, [])
  {
    Wire.SetHlmacRoundTrip(msg.timestamp, msg.prefix, [Wire.Record(msg.id, mac)], beyond, self);
  }

  // ---- neighbour discovery ----

  /** An empty packet, whatever lies in memory behind it. */
  datatype EmptyPacket = EmptyPacket(sender: LinkId, beyond: Wire.Beyond, draw: int)

  function Senders(packets: seq<EmptyPacket>): (r: seq<LinkId>)
    ensures |r| == |packets| && forall i :: 0 <= i < |r| ==> r[i] == packets[i].sender
  {
    seq(|packets|, i requires 0 <= i < |packets| => packets[i].sender)
  }

  /** The node after these packets. */
  function AfterPackets(n: Node, mac: Wire.Bytes, packets: seq<EmptyPacket>): Node
  {
    if packets == [] then n
    else
      var l := |packets| - 1;
      OnPacket(AfterPackets(n, mac, packets[..l]), packets[l].sender, Wire.Parse([], packets[l].beyond, mac), packets[l].draw).node
  }

  /** Each sender once, in the order of first hearing. */
  function FirstHeard(senders: seq<LinkId>): (r: seq<LinkId>)
    ensures forall a :: a in r <==> a in senders
    ensures forall i, j :: 0 <= i < j < |r| ==> r[i] != r[j]
  {
    if senders == [] then []
    else
      var l := |senders| - 1;
      var r := FirstHeard(senders[..l]);
      assert senders == senders[..l] + [senders[l]];
      if senders[l] in r then r else r + [senders[l]]
  }

  /** Before a listed sender was first heard nobody listed after it had been. */
  lemma {:induction false} HeardInOrder(senders: seq<LinkId>, i: nat, j: nat) returns (t: nat)
    requires i < j < |FirstHeard(senders)|
    ensures t < |senders| && senders[t] == FirstHeard(senders)[i] && FirstHeard(senders)[j] !in senders[..t + 1]
  {
    var l := |senders| - 1;
    var before, r := FirstHeard(senders[..l]), FirstHeard(senders);
    if j < |before| {
      t := HeardInOrder(senders[..l], i, j);
      assert senders[..l][..t + 1] == senders[..t + 1];
    } else {
      assert r == before + [senders[l]] && r[i] in senders[..l];
      t :| 0 <= t < l && senders[..l][t] == r[i];
      assert forall x :: x in senders[..t + 1] ==> x in senders[..l];
    }
  }

  /** Fresh entries for `g`, with ids that follow the order and wrap after 255. */
  function Entries(g: seq<LinkId>): (r: seq<Nbr>)
    ensures |r| == |g| && forall i :: 0 <= i < |g| ==> r[i] == Nbr(g[i], (i + 1) % 256, 0, 0, 0)
  {
    seq(|g|, i requires 0 <= i < |g| => Nbr(g[i], (i + 1) % 256, 0, 0, 0))
  }

  /** Room for 256. */
  function Cut(g: seq<LinkId>): seq<LinkId> { if |g| <= 256 then g else g[..256] }

  lemma HeardOne(n: Node, g: seq<LinkId>, a: LinkId)
    requires n.nbrs == Entries(Cut(g))
    ensures OnHello(n, a).nbrs == Entries(Cut(if a in g then g else g + [a]))
  {
    if |n.nbrs| < 256 {
      assert HasNbr(n.nbrs, a) <==> a in g by {
        if a in g {
          var i :| 0 <= i < |g| && g[i] == a;
          assert n.nbrs[i].addr == a;
        }
      }
    } else {
      assert Cut(g + [a]) == Cut(g);
    }
  }

  /**
   * Neighbour discovery: after any empty packets the table lists exactly their senders, up to 256, with ids
   * in the order in which they were first heard, no flag and no flow, and nothing else has changed.
   */
  lemma {:induction false} PacketsDiscover(n: Node, mac: Wire.Bytes, packets: seq<EmptyPacket>)
    requires n.nbrs == []
    ensures AfterPackets(n, mac, packets) == n.(nbrs := Entries(Cut(FirstHeard(Senders(packets)))))
  {
    if packets != [] {
      var l := |packets| - 1;
      var before := AfterPackets(n, mac, packets[..l]);
      PacketsDiscover(n, mac, packets[..l]);
      assert Senders(packets)[..l] == Senders(packets[..l]);
      HeardOne(before, FirstHeard(Senders(packets[..l])), packets[l].sender);
    } else {
      assert Entries(Cut(FirstHeard([]))) == [];
    }
  }

  lemma EntriesUsable(g: seq<LinkId>)
    requires |g| <= 256 && forall i, j :: 0 <= i < j < |g| ==> g[i] != g[j]
    ensures Distinct(Entries(g))
    ensures (forall i :: 0 <= i < |g| ==> Entries(g)[i].id != 0) <==> |g| <= 255
    ensures forall i, j :: 0 <= i < j < |g| ==> Entries(g)[i].id != Entries(g)[j].id
  {
    if |g| == 256 {
      assert Entries(g)[255].id == 0;
    }
  }

  /**
   * After any empty packets the ids are distinct, and non-zero exactly while the table holds at
   * most 255 entries: the 256th id is 0.
   */
  lemma IdsUsable(n: Node, mac: Wire.Bytes, packets: seq<EmptyPacket>)
    requires n.nbrs == []
    ensures var nbrs := AfterPackets(n, mac, packets).nbrs;
            && Distinct(nbrs)
            && ((forall i :: 0 <= i < |nbrs| ==> nbrs[i].id != 0) <==> |nbrs| <= 255)
            && (forall i, j :: 0 <= i < j < |nbrs| ==> nbrs[i].id != nbrs[j].id)
  {
    PacketsDiscover(n, mac, packets);
    EntriesUsable(Cut(FirstHeard(Senders(packets))));
  }
}
