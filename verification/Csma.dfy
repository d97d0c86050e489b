/**
 * The CSMA output queue of csma-output.c: per-neighbour FIFO queues, three fixed pools,
 * and the retry rule. The functions say what an event does to the whole state; the class
 * does it field by field.
 */
module Csma {
  import opened Types

  const CSMA_MIN_BE := 3
  const CSMA_MAX_BE := 5
  const CSMA_MAX_BACKOFF := 5
  const CSMA_MAX_FRAME_RETRIES := 7
  /** The value `transmission_delay` is given before a packet is handed over. */
  const NOT_SCHEDULED := 1000

  datatype Status = Ok | Collision | NoAck | Deferred | Err | ErrFatal

  /** A queued packet with its metadata; `id` stands for the callback and its argument. */
  datatype Packet = Packet(id: nat, seqno: Byte, maxTx: Byte)

  /** `timer` holds the delay the transmit timer was armed with. */
  datatype Queue = Queue(addr: LinkId, transmissions: Byte, collisions: Byte, packets: seq<Packet>, timer: Option<nat>)

  datatype Callback = Callback(id: nat, status: Status, ntx: Byte)

  /** Pool sizes, the limit per queue, and backoff_period() in ticks. */
  datatype Limits = Limits(neighbours: nat, packets: nat, perNeighbour: nat, period: nat)

  /** The counts are blocks in use; `log` lists the callbacks made. */
  datatype State = State(
    queues: seq<Queue>,
    packets: nat,
    metadata: nat,
    bufs: nat,
    entries: nat,
    initialized: bool,
    seqno: Byte,
    delay: nat,
    log: seq<Callback>)

  /** What a caller hands over, and whether the shared buffer pool has room for it. */
  datatype Request = Request(id: nat, dest: LinkId, maxTxAttr: nat, bufGiven: bool)

  const Idle := State([], 0, 0, 0, 0, false, 0, NOT_SCHEDULED, [])

  // ---- backoff ----

  function Pow2(n: nat): (r: nat)
    ensures r >= 1
  {
    if n == 0 then 1 else 2 * Pow2(n - 1)
  }

  /** (2^BE - 1) backoff periods. */
  function BackoffSpan(collisions: nat, period: nat): nat
  {
    (Pow2(Min(collisions + CSMA_MIN_BE, CSMA_MAX_BE)) - 1) * period
  }

  function Delay(collisions: nat, period: nat, rnd: nat): nat
  {
    var span := BackoffSpan(collisions, period);
    if span > 0 then rnd % span else span
  }

  /** max_transmission_delay() */
  function MaxTransmissionDelay(period: nat): nat
  {
    (Pow2(CSMA_MAX_BE) - 1) * period
  }

  // ---- one radio attempt ----

  /** What the radio shows during send_one_packet. */
  datatype Radio = Radio(
    frameBuilt: bool,
    receiving: bool,
    pending: bool,
    broadcast: bool,
    transmit: Status,
    activityAfter: bool,
    pendingAfter: bool,
    ackMatches: bool)

  /** The result send_one_packet passes on; `transmit` other than Ok and Collision is any other radio code. */
  function SendResult(r: Radio): Status
  {
    if !r.frameBuilt then ErrFatal
    else if r.receiving || (!r.broadcast && r.pending) then Collision
    else match r.transmit
      case Ok =>
        if r.broadcast then Ok
        else if !r.activityAfter || !r.pendingAfter then NoAck
        else if r.ackMatches then Ok
        else Collision
      case Collision => Collision
      case _ => Err
  }

  /** A packet counts as sent only if it went out and, for unicast, the matching acknowledgement was read. */
  lemma SentMeansAcknowledged(r: Radio)
    ensures SendResult(r) != Deferred
    ensures SendResult(r) == Ok <==>
              && r.frameBuilt && !r.receiving && r.transmit == Ok
              && (r.broadcast || (!r.pending && r.activityAfter && r.pendingAfter && r.ackMatches))
  {
  }

  // ---- events ----

  function Find(queues: seq<Queue>, addr: LinkId): (i: nat)
    ensures i <= |queues|
    ensures i < |queues| ==> queues[i].addr == addr
    ensures forall j :: 0 <= j < i ==> queues[j].addr != addr
  {
    if queues == [] then 0
    else if queues[0].addr == addr then 0
    else 1 + Find(queues[1..], addr)
  }

  function SetQueue(s: State, i: nat, q: Queue): State
    requires i < |s.queues|
  {
    s.(queues := s.queues[i := q])
  }

  /** schedule_transmission */
  function Schedule(s: State, i: nat, period: nat, rnd: nat): State
    requires i < |s.queues|
  {
    var d := Delay(s.queues[i].collisions, period, rnd);
    SetQueue(s, i, s.queues[i].(timer := Some(d))).(delay := d)
  }

  function Without(queues: seq<Queue>, i: nat): seq<Queue>
    requires i < |queues|
  {
    queues[..i] + queues[i + 1..]
  }

  /** free_packet on the head of queue `i`. */
  function FreeHead(s: State, i: nat, period: nat, rnd: nat): State
    requires i < |s.queues| && s.queues[i].packets != []
    requires s.packets > 0 && s.metadata > 0 && s.bufs > 0 && s.entries > 0
  {
    var q := s.queues[i];
    var s1 := s.(packets := s.packets - 1, metadata := s.metadata - 1, bufs := s.bufs - 1);
    if |q.packets| > 1 then
      Schedule(SetQueue(s1, i, q.(packets := q.packets[1..], transmissions := 0, collisions := 0)), i, period, rnd)
    else
      s1.(queues := Without(s.queues, i), entries := s.entries - 1)
  }

  /** tx_done */
  function Done(s: State, i: nat, status: Status, period: nat, rnd: nat): State
    requires i < |s.queues| && s.queues[i].packets != []
    requires s.packets > 0 && s.metadata > 0 && s.bufs > 0 && s.entries > 0
  {
    var q := s.queues[i];
    var f := FreeHead(s, i, period, rnd);
    f.(log := f.log + [Callback(q.packets[0].id, status, q.transmissions)])
  }

  /** The counters after one attempt. */
  function Counted(q: Queue, result: Status): Queue
  {
    match result
    case Ok => q.(collisions := 0, transmissions := (q.transmissions + 1) % 256)
    case NoAck => q.(collisions := 0, transmissions := (q.transmissions + 1) % 256)
    case Collision =>
      if (q.collisions + 1) % 256 > CSMA_MAX_BACKOFF then q.(collisions := 0, transmissions := (q.transmissions + 1) % 256)
      else q.(collisions := (q.collisions + 1) % 256)
    case _ => q
  }

  /** Whether the packet is given up or delivered: `q` has the counters after the attempt. */
  predicate Finishes(q: Queue, result: Status)
    requires q.packets != []
  {
    match result
    case Ok | Err | ErrFatal => true
    case NoAck | Collision => q.transmissions >= q.packets[0].maxTx
    case Deferred => false
  }

  /** packet_sent */
  function PacketSent(s: State, i: nat, result: Status, period: nat, rnd: nat): State
    requires i < |s.queues| && s.queues[i].packets != []
    requires s.packets > 0 && s.metadata > 0 && s.bufs > 0 && s.entries > 0
  {
    var q := Counted(s.queues[i], result);
    var s1 := SetQueue(s, i, q);
    if result == Deferred then s
    else if Finishes(q, result) then Done(s1, i, result, period, rnd)
    else Schedule(s1, i, period, rnd)
  }

  /** The transmit timer of queue `i` fires: transmit_from_queue. */
  function Fire(s: State, i: nat, result: Status, period: nat, rnd: nat): State
    requires i < |s.queues| && s.queues[i].packets != []
    requires s.packets > 0 && s.metadata > 0 && s.bufs > 0 && s.entries > 0
  {
    PacketSent(SetQueue(s, i, s.queues[i].(timer := None)), i, result, period, rnd)
  }

  /** The sequence number of the next packet, which is never 0. */
  function NextSeqno(s: State, seed: Byte): (r: Byte)
    ensures r != 0
  {
    var n := if s.initialized then s.seqno else seed;
    if n == 0 then 1 else n
  }

  function MaxTx(attr: nat): (r: Byte)
    ensures r > 0
  {
    if attr % 256 == 0 then CSMA_MAX_FRAME_RETRIES + 1 else attr % 256
  }

  /** Whether csma_output_packet queues the packet. */
  predicate Accepts(lim: Limits, s: State, r: Request)
  {
    var i := Find(s.queues, r.dest);
    && (if i < |s.queues| then |s.queues[i].packets| < lim.perNeighbour else s.entries < lim.neighbours && 0 < lim.perNeighbour)
    && s.packets < lim.packets && s.metadata < lim.packets && r.bufGiven
  }

  function Numbered(s: State, seed: Byte): State
  {
    s.(initialized := true, seqno := (NextSeqno(s, seed) + 1) % 256)
  }

  /** The packet joins queue `i`; the head of a queue is scheduled at once. */
  function Enqueue(s: State, i: nat, p: Packet, period: nat, rnd: nat): State
    requires i < |s.queues|
  {
    var q := s.queues[i];
    var s1 := SetQueue(s, i, q.(packets := q.packets + [p]))
              .(packets := s.packets + 1, metadata := s.metadata + 1, bufs := s.bufs + 1);
    if q.packets == [] then Schedule(s1, i, period, rnd) else s1
  }

  function WithNeighbour(s: State, addr: LinkId): State
  {
    s.(queues := s.queues + [Queue(addr, 0, 0, [], None)], entries := s.entries + 1)
  }

  /** The list with an entry for `addr`, made if there is none and one is free. */
  function Listed(lim: Limits, s: State, addr: LinkId): State
  {
    if Find(s.queues, addr) == |s.queues| && s.entries < lim.neighbours then WithNeighbour(s, addr) else s
  }

  /** A queue that is still empty after a failed allocation leaves the list. */
  function DropEmpty(s: State, i: nat): State
  {
    if i < |s.queues| && s.queues[i].packets == [] then
      s.(queues := Without(s.queues, i), entries := if s.entries > 0 then s.entries - 1 else 0)
    else s
  }

  /**
   * csma_output_packet. A packet refused for a full queue leaves the list as it is, a fresh entry
   * included; one refused by the pools takes an empty queue for its destination off the list.
   */
  function Submit(lim: Limits, s: State, r: Request, seed: Byte, rnd: nat): State
  {
    var n := Listed(lim, Numbered(s, seed), r.dest);
    var i := Find(s.queues, r.dest);
    if Accepts(lim, s, r) then
      Enqueue(n, i, Packet(r.id, NextSeqno(s, seed), MaxTx(r.maxTxAttr)), lim.period, rnd)
    else
      (if lim.perNeighbour > 0 then DropEmpty(n, i) else n).(log := s.log + [Callback(r.id, Err, 1)])
  }

  class CsmaOutput {
    const lim: Limits

    var neighbourList: seq<Queue>
    var packetMemb: nat
    var metadataMemb: nat
    var queuebufs: nat
    var neighborMemb: nat
    var initialized: bool
    var seqno: Byte
    var transmissionDelay: nat
    var callbacks: seq<Callback>

    ghost function S(): State
      reads this
    {
      State(neighbourList, packetMemb, metadataMemb, queuebufs, neighborMemb, initialized, seqno, transmissionDelay, callbacks)
    }

    /** csma_output_init */
    constructor (lim: Limits)
      ensures this.lim == lim && S() == Idle
    {
      this.lim := lim;
      neighbourList, callbacks := [], [];
      packetMemb, metadataMemb, queuebufs, neighborMemb := 0, 0, 0, 0;
      initialized, seqno, transmissionDelay := false, 0, NOT_SCHEDULED;
    }

    /** neighbor_queue_from_addr */
    method NeighborQueueFromAddr(addr: LinkId) returns (i: nat)
      ensures i == Find(neighbourList, addr)
    {
      i := 0;
      while i < |neighbourList|
        invariant i <= |neighbourList|
        invariant Find(neighbourList, addr) == i + Find(neighbourList[i..], addr)
      {
        if neighbourList[i].addr == addr {
          return;
        }
        assert neighbourList[i..][1..] == neighbourList[i + 1..];
        i := i + 1;
      }
    }

    method ScheduleTransmission(i: nat, rnd: nat)
      requires i < |neighbourList|
      modifies this`neighbourList, this`transmissionDelay
      ensures S() == Schedule(old(S()), i, lim.period, rnd)
      ensures |neighbourList| == |old(neighbourList)|
    {
      var be := Min(neighbourList[i].collisions + CSMA_MIN_BE, CSMA_MAX_BE);
      var delay := (Pow2(be) - 1) * lim.period;
      if delay > 0 {
        delay := rnd % delay;
      }
      neighbourList := neighbourList[i := neighbourList[i].(timer := Some(delay))];
      transmissionDelay := delay;
    }

    method FreePacket(i: nat, rnd: nat)
      requires i < |neighbourList| && neighbourList[i].packets != []
      requires packetMemb > 0 && metadataMemb > 0 && queuebufs > 0 && neighborMemb > 0
      modifies this`neighbourList, this`transmissionDelay
      modifies this`packetMemb, this`metadataMemb, this`queuebufs, this`neighborMemb
      ensures S() == FreeHead(old(S()), i, lim.period, rnd)
    {
      neighbourList := neighbourList[i := neighbourList[i].(packets := neighbourList[i].packets[1..])];
      queuebufs := queuebufs - 1;
      metadataMemb := metadataMemb - 1;
      packetMemb := packetMemb - 1;
      if neighbourList[i].packets != [] {
        neighbourList := neighbourList[i := neighbourList[i].(transmissions := 0, collisions := 0)];
        ScheduleTransmission(i, rnd);
      } else {
        neighbourList := neighbourList[i := neighbourList[i].(timer := None)];
        neighbourList := neighbourList[..i] + neighbourList[i + 1..];
        neighborMemb := neighborMemb - 1;
      }
    }

    method TxDone(i: nat, status: Status, rnd: nat)
      requires i < |neighbourList| && neighbourList[i].packets != []
      requires packetMemb > 0 && metadataMemb > 0 && queuebufs > 0 && neighborMemb > 0
      modifies this`neighbourList, this`transmissionDelay, this`callbacks
      modifies this`packetMemb, this`metadataMemb, this`queuebufs, this`neighborMemb
      ensures S() == Done(old(S()), i, status, lim.period, rnd)
    {
      var id, ntx := neighbourList[i].packets[0].id, neighbourList[i].transmissions;
      FreePacket(i, rnd);
      callbacks := callbacks + [Callback(id, status, ntx)];
    }

    /** Gives up after max_transmissions, and schedules the packet again before that. */
    method GiveUpOrRetry(i: nat, status: Status, rnd: nat)
      requires i < |neighbourList| && neighbourList[i].packets != []
      requires packetMemb > 0 && metadataMemb > 0 && queuebufs > 0 && neighborMemb > 0
      modifies this`neighbourList, this`transmissionDelay, this`callbacks
      modifies this`packetMemb, this`metadataMemb, this`queuebufs, this`neighborMemb
      ensures S() == if old(neighbourList)[i].transmissions >= old(neighbourList)[i].packets[0].maxTx
                     then Done(old(S()), i, status, lim.period, rnd)
                     else Schedule(old(S()), i, lim.period, rnd)
    {
      if neighbourList[i].transmissions >= neighbourList[i].packets[0].maxTx {
        TxDone(i, status, rnd);
      } else {
        ScheduleTransmission(i, rnd);
      }
    }

    method CountCollision(i: nat)
      requires i < |neighbourList| && neighbourList[i].packets != []
      modifies this`neighbourList
      ensures S() == SetQueue(old(S()), i, Counted(old(neighbourList)[i], Collision))
    {
      neighbourList := neighbourList[i := neighbourList[i].(collisions := (neighbourList[i].collisions + 1) % 256)];
      if neighbourList[i].collisions > CSMA_MAX_BACKOFF {
        neighbourList := neighbourList[i := neighbourList[i].(collisions := 0, transmissions := (neighbourList[i].transmissions + 1) % 256)];
      }
    }

    method CountTransmission(i: nat)
      requires i < |neighbourList| && neighbourList[i].packets != []
      modifies this`neighbourList
      ensures S() == SetQueue(old(S()), i, Counted(old(neighbourList)[i], NoAck))
      ensures S() == SetQueue(old(S()), i, Counted(old(neighbourList)[i], Ok))
    {
      neighbourList := neighbourList[i := neighbourList[i].(collisions := 0)];
      neighbourList := neighbourList[i := neighbourList[i].(transmissions := (neighbourList[i].transmissions + 1) % 256)];
    }

    method HandlePacketSent(i: nat, status: Status, rnd: nat)
      requires i < |neighbourList| && neighbourList[i].packets != []
      requires packetMemb > 0 && metadataMemb > 0 && queuebufs > 0 && neighborMemb > 0
      modifies this`neighbourList, this`transmissionDelay, this`callbacks
      modifies this`packetMemb, this`metadataMemb, this`queuebufs, this`neighborMemb
      ensures S() == PacketSent(old(S()), i, status, lim.period, rnd)
    {
      match status {
        case Ok =>
          CountTransmission(i);
          TxDone(i, Ok, rnd);
        case NoAck =>
          CountTransmission(i);
          GiveUpOrRetry(i, NoAck, rnd);
        case Collision =>
          CountCollision(i);
          GiveUpOrRetry(i, Collision, rnd);
        case Deferred =>
        case _ =>
          assert neighbourList[i := neighbourList[i]] == neighbourList;
          TxDone(i, status, rnd);
      }
    }

    /** The transmit timer of queue `i` has expired. */
    method TransmitFromQueue(i: nat, radio: Radio, rnd: nat)
      requires i < |neighbourList| && neighbourList[i].packets != []
      requires packetMemb > 0 && metadataMemb > 0 && queuebufs > 0 && neighborMemb > 0
      modifies this`neighbourList, this`transmissionDelay, this`callbacks
      modifies this`packetMemb, this`metadataMemb, this`queuebufs, this`neighborMemb
      ensures S() == Fire(old(S()), i, SendResult(radio), lim.period, rnd)
    {
      neighbourList := neighbourList[i := neighbourList[i].(timer := None)];
      HandlePacketSent(i, SendResult(radio), rnd);
    }

    method TakeSeqno(seed: Byte) returns (n: Byte)
      modifies this`initialized, this`seqno
      ensures n == NextSeqno(old(S()), seed) && S() == Numbered(old(S()), seed)
    {
      if !initialized {
        initialized := true;
        seqno := seed;
      }
      if seqno == 0 {
        seqno := seqno + 1;
      }
      n := seqno;
      seqno := (seqno + 1) % 256;
    }

    /** Allocates packet, metadata and buffer; everything already allocated goes back when one of them fails. */
    method AllocAndAdd(i: nat, r: Request, number: Byte, rnd: nat) returns (added: bool)
      requires i < |neighbourList|
      modifies this`neighbourList, this`transmissionDelay, this`packetMemb, this`metadataMemb, this`queuebufs
      ensures added <==> old(packetMemb) < lim.packets && old(metadataMemb) < lim.packets && r.bufGiven
      ensures S() == if added then Enqueue(old(S()), i, Packet(r.id, number, MaxTx(r.maxTxAttr)), lim.period, rnd) else old(S())
    {
      added := false;
      if packetMemb < lim.packets {
        packetMemb := packetMemb + 1;
        if metadataMemb < lim.packets {
          metadataMemb := metadataMemb + 1;
          if r.bufGiven {
            queuebufs := queuebufs + 1;
            var maxTx := r.maxTxAttr % 256;
            if maxTx == 0 {
              maxTx := CSMA_MAX_FRAME_RETRIES + 1;
            }
            neighbourList := neighbourList[i := neighbourList[i].(packets := neighbourList[i].packets + [Packet(r.id, number, maxTx)])];
            if |neighbourList[i].packets| == 1 {
              ScheduleTransmission(i, rnd);
            }
            return true;
          }
          metadataMemb := metadataMemb - 1;
        }
        packetMemb := packetMemb - 1;
      }
    }

    /** The queue for `addr`, made if there is none and an entry is free. */
    method FindOrAdd(addr: LinkId) returns (i: nat, found: bool)
      modifies this`neighbourList, this`neighborMemb
      ensures i == Find(old(neighbourList), addr)
      ensures found <==> i < |neighbourList|
      ensures found <==> i < |old(neighbourList)| || old(neighborMemb) < lim.neighbours
      ensures S() == if found && i == |old(neighbourList)| then WithNeighbour(old(S()), addr) else old(S())
    {
      i := NeighborQueueFromAddr(addr);
      if i == |neighbourList| {
        if neighborMemb < lim.neighbours {
          neighborMemb := neighborMemb + 1;
          neighbourList := neighbourList + [Queue(addr, 0, 0, [], None)];
        }
      }
      found := i < |neighbourList|;
    }

    /** An entry whose queue stayed empty is taken off the list again. */
    method DropIfEmpty(i: nat)
      requires i < |neighbourList| && neighborMemb > 0
      modifies this`neighbourList, this`neighborMemb
      ensures S() == if old(neighbourList)[i].packets == []
                     then old(S()).(queues := Without(old(neighbourList), i), entries := old(neighborMemb) - 1)
                     else old(S())
    {
      if |neighbourList[i].packets| == 0 {
        neighbourList := neighbourList[..i] + neighbourList[i + 1..];
        neighborMemb := neighborMemb - 1;
      }
    }

    /** csma_output_packet. Each listed queue is an entry in use. */
    method OutputPacket(r: Request, seed: Byte, rnd: nat)
      requires neighborMemb >= |neighbourList|
      modifies this
      ensures S() == Submit(lim, old(S()), r, seed, rnd)
    {
      var number := TakeSeqno(seed);
      var i, found := FindOrAdd(r.dest);
      if found {
        if |neighbourList[i].packets| < lim.perNeighbour {
          var added := AllocAndAdd(i, r, number, rnd);
          if added {
            return;
          }
          DropIfEmpty(i);
        }
      }
      callbacks := callbacks + [Callback(r.id, Err, 1)];
    }
  }
}
