/**
 * The four payloads on the air and how a receiver tells them apart:
 *   Hello     no bytes
 *   Share     a 16-bit integer
 *   Load      a 32-bit integer
 *   SetHLMAC  timestamp(4) | prefix length(1) | prefix | id(1) mac | ... | id(1) mac
 * Link-layer addresses have `macLen` bytes (LINKADDR_SIZE); the all-zero one is the null address.
 */
module Wire {
  import opened Types
  import opened HlmacAddr

  type Bytes = seq<Byte>

  datatype Record = Record(id: Byte, mac: Bytes)

  datatype Incoming =
    | Hello
    | SetHlmac(timestamp: nat, address: Addr)
    | Load(value: int)
    | Share(value: int)
    | Ignored

  // ---- integers in memory order ----

  function U32Bytes(v: int): (r: Bytes)
    requires 0 <= v < 0x1_0000_0000
    ensures |r| == 4
  {
    [v % 256, v / 256 % 256, v / 65536 % 256, v / 16777216]
  }

  function BytesU32(b: Bytes): (r: int)
    requires |b| == 4
    ensures 0 <= r < 0x1_0000_0000
  {
    var b0: int, b1: int, b2: int, b3: int := b[0], b[1], b[2], b[3];
    b0 + 256 * b1 + 65536 * b2 + 16777216 * b3
  }

  function I32Bytes(v: int): (r: Bytes)
    requires -0x8000_0000 <= v < 0x8000_0000
    ensures |r| == 4
  {
    U32Bytes(if v < 0 then v + 0x1_0000_0000 else v)
  }

  function BytesI32(b: Bytes): int
    requires |b| == 4
  {
    var u := BytesU32(b);
    if u >= 0x8000_0000 then u - 0x1_0000_0000 else u
  }

  function I16Bytes(v: int): (r: Bytes)
    requires -32768 <= v <= 32767
    ensures |r| == 2
  {
    var u := if v < 0 then v + 65536 else v;
    [u % 256, u / 256]
  }

  function BytesI16(b: Bytes): int
    requires |b| == 2
  {
    var b0: int, b1: int := b[0], b[1];
    ToInt16(b0 + 256 * b1)
  }

  lemma IntegersRoundTrip(u: int, v: int, w: int)
    requires 0 <= u < 0x1_0000_0000
    requires -0x8000_0000 <= v < 0x8000_0000
    requires -32768 <= w <= 32767
    ensures BytesU32(U32Bytes(u)) == u
    ensures BytesI32(I32Bytes(v)) == v
    ensures BytesI16(I16Bytes(w)) == w
  {
    var x := if v < 0 then v + 0x1_0000_0000 else v;
    U32RoundTrip(u);
    U32RoundTrip(x);
    var y := if w < 0 then w + 65536 else w;
    assert y % 256 + 256 * (y / 256) == y;
    assert ToInt16(y) == w;
  }

  lemma U32RoundTrip(u: int)
    requires 0 <= u < 0x1_0000_0000
    ensures BytesU32(U32Bytes(u)) == u
  {
    var a := u / 256;
    var b := a / 256;
    assert u / 65536 == b && u / 16777216 == b / 256;
    assert u == 256 * a + u % 256 && a == 256 * b + a % 256 && b == 256 * (b / 256) + b % 256;
  }

  /** ... and every four bytes are the encoding of what they decode to. */
  lemma BytesRoundTrip(b: Bytes)
    requires |b| == 4
    ensures U32Bytes(BytesU32(b)) == b
  {
    var b0: int, b1: int, b2: int, b3: int := b[0], b[1], b[2], b[3];
    var r := b1 + 256 * (b2 + 256 * b3);
    var u := b0 + 256 * r;
    assert BytesU32(b) == u;
    assert u % 256 == b0 && u / 256 == r;
    assert r % 256 == b1 && r / 256 == b2 + 256 * b3;
    assert u / 65536 == b2 + 256 * b3 && u / 16777216 == b3;
  }

  // ---- SetHLMAC ----

  function Header(ts: int, prefix: Addr): (r: Bytes)
    requires 0 <= ts < 0x1_0000_0000 && |prefix| < 256
    ensures |r| == 5 + |prefix|
  {
    U32Bytes(ts) + [|prefix|] + prefix
  }

  function EncodeRecords(records: seq<Record>): Bytes
  {
    if records == [] then [] else [records[0].id] + records[0].mac + EncodeRecords(records[1..])
  }

  function Encode(ts: int, prefix: Addr, records: seq<Record>): Bytes
    requires 0 <= ts < 0x1_0000_0000 && |prefix| < 256
  {
    Header(ts, prefix) + EncodeRecords(records)
  }

  ghost predicate WellSized(records: seq<Record>, macLen: nat)
  {
    forall i :: 0 <= i < |records| ==> |records[i].mac| == macLen
  }

  /** What lies in memory past the payload; the receiver may copy it but must not depend on it. */
  type Beyond = nat -> Byte

  function Peek(data: Bytes, beyond: Beyond, i: nat): Byte
  {
    if i < |data| then data[i] else beyond(i)
  }

  function PeekMany(data: Bytes, beyond: Beyond, from: nat, n: nat): (r: Bytes)
    ensures |r| == n
    ensures forall i :: 0 <= i < n ==> r[i] == Peek(data, beyond, from + i)
  {
    seq<Byte>(n, i requires 0 <= i < n => Peek(data, beyond, from + i))
  }

  /** Inside the payload nothing beyond it is read. */
  lemma PeekInside(data: Bytes, beyond: Beyond, from: nat, n: nat)
    requires from + n <= |data|
    ensures PeekMany(data, beyond, from, n) == data[from..from + n]
  {
  }

  function NullMac(macLen: nat): Bytes { seq(macLen, _ => 0) }

  /** The record scan: stops at the end of the payload or at the receiver's own address. */
  function Scan(data: Bytes, beyond: Beyond, self: Bytes, pos: nat, link: Bytes, id: Byte): (r: Option<Byte>)
    decreases |data| - pos
  {
    if pos < |data| && link != self then
      Scan(data, beyond, self, pos + 1 + |self|, PeekMany(data, beyond, pos + 1, |self|), Peek(data, beyond, pos))
    else if link == self then Some(id) else None
  }

  /** The address a payload assigns to `self`; None is the unspecified address. */
  function Extract(data: Bytes, beyond: Beyond, self: Bytes): Option<Addr>
  {
    var n := Peek(data, beyond, 4);
    var prefix := PeekMany(data, beyond, 5, n);
    match Scan(data, beyond, self, 5 + n, NullMac(|self|), 0)
    case Some(id) => Some(if n == 255 then [] else prefix + [id])
    case None => None
  }

  /** iotorii_operation and the length tests of iotorii_handle_incoming_sethlmac_or_load. */
  function Parse(data: Bytes, beyond: Beyond, self: Bytes): Incoming
  {
    if |data| == 0 then Hello
    else match Extract(data, beyond, self)
      case Some(a) => SetHlmac(BytesU32(PeekMany(data, beyond, 0, 4)), a)
      case None => Short(data)
  }

  /** Without an address for the receiver the length decides. */
  function Short(data: Bytes): (r: Incoming)
    ensures !r.SetHlmac?
  {
    if |data| == 4 then Load(BytesI32(data))
    else if |data| == 2 then Share(BytesI16(data))
    else Ignored
  }

  /** One turn of the scan reads one record. */
  lemma ScanStep(data: Bytes, beyond: Beyond, self: Bytes, pos: nat, link: Bytes, id: Byte, first: Record)
    requires link != self && |first.mac| == |self| && pos + 1 + |self| <= |data|
    requires data[pos] == first.id && data[pos + 1..pos + 1 + |self|] == first.mac
    ensures Scan(data, beyond, self, pos, link, id)
            == Scan(data, beyond, self, pos + 1 + |self|, first.mac, first.id)
  {
    PeekInside(data, beyond, pos + 1, |self|);
  }

  /** Reading the first record off what is left of the payload. */
  lemma RecordAt(data: Bytes, pos: nat, records: seq<Record>)
    requires records != [] && pos <= |data| && data[pos..] == EncodeRecords(records)
    ensures var next := pos + 1 + |records[0].mac|;
            && next <= |data| && data[pos] == records[0].id && data[pos + 1..next] == records[0].mac
            && data[next..] == EncodeRecords(records[1..])
  {
    var first, rest, tail := records[0], EncodeRecords(records[1..]), data[pos..];
    var n := |first.mac|;
    assert tail == [first.id] + first.mac + rest;
    assert tail[0] == first.id && tail[1..1 + n] == first.mac && tail[1 + n..] == rest;
    assert data[pos + 1..pos + 1 + n] == tail[1..1 + n];
    assert data[pos + 1 + n..] == tail[1 + n..];
  }

  /** The records lie one after the other from `pos` to the end of the payload. */
  ghost predicate Laid(data: Bytes, pos: nat, records: seq<Record>, macLen: nat)
    decreases |records|
  {
    if records == [] then pos == |data|
    else
      && pos + 1 + macLen <= |data| && |records[0].mac| == macLen
      && data[pos] == records[0].id && data[pos + 1..pos + 1 + macLen] == records[0].mac
      && Laid(data, pos + 1 + macLen, records[1..], macLen)
  }

  lemma {:induction false} EncodedIsLaid(data: Bytes, pos: nat, records: seq<Record>, macLen: nat)
    requires WellSized(records, macLen) && pos <= |data| && data[pos..] == EncodeRecords(records)
    ensures Laid(data, pos, records, macLen)
    decreases |records|
  {
    if records == [] {
      assert |data[pos..]| == 0;
    } else {
      RecordAt(data, pos, records);
      EncodedIsLaid(data, pos + 1 + macLen, records[1..], macLen);
    }
  }

  /** Without a record for `self` the scan finds nothing. */
  lemma {:induction false} ScanMiss(data: Bytes, pos: nat, records: seq<Record>, beyond: Beyond, self: Bytes, link: Bytes, id: Byte)
    requires Laid(data, pos, records, |self|) && link != self
    requires forall i :: 0 <= i < |records| ==> records[i].mac != self
    ensures Scan(data, beyond, self, pos, link, id) == None
    decreases |records|
  {
    if records != [] {
      ScanStep(data, beyond, self, pos, link, id, records[0]);
      ScanMiss(data, pos + 1 + |self|, records[1..], beyond, self, records[0].mac, records[0].id);
    }
  }

  /** The scan stops at the first record for `self`. */
  lemma {:induction false} ScanHit(data: Bytes, pos: nat, records: seq<Record>, beyond: Beyond, self: Bytes, link: Bytes, id: Byte, k: nat)
    requires Laid(data, pos, records, |self|) && link != self
    requires k < |records| && records[k].mac == self
    requires forall i :: 0 <= i < k ==> records[i].mac != self
    ensures Scan(data, beyond, self, pos, link, id) == Some(records[k].id)
    decreases k
  {
    ScanStep(data, beyond, self, pos, link, id, records[0]);
    if k > 0 {
      ScanHit(data, pos + 1 + |self|, records[1..], beyond, self, records[0].mac, records[0].id, k - 1);
    }
  }

  /** The header reads back. */
  lemma HeaderReads(ts: int, prefix: Addr, records: seq<Record>, beyond: Beyond)
    requires 0 <= ts < 0x1_0000_0000 && |prefix| < 256
    ensures var data := Encode(ts, prefix, records);
            && |data| == 5 + |prefix| + |EncodeRecords(records)| && data[5 + |prefix|..] == EncodeRecords(records)
            && Peek(data, beyond, 4) == |prefix|
            && PeekMany(data, beyond, 5, |prefix|) == prefix
            && BytesU32(PeekMany(data, beyond, 0, 4)) == ts
  {
    var data := Encode(ts, prefix, records);
    PeekInside(data, beyond, 0, 4);
    assert data[0..4] == U32Bytes(ts);
    U32RoundTrip(ts);
    PeekInside(data, beyond, 5, |prefix|);
    assert data[5..5 + |prefix|] == prefix;
  }

  /**
   * Round trip: the owner of the k-th record reads back the timestamp and prefix ++ [id_k], or
   * nothing of the prefix if that has 255 ids; everyone else ignores the message. No byte past the
   * payload matters.
   */
  lemma SetHlmacRoundTrip(ts: int, prefix: Addr, records: seq<Record>, beyond: Beyond, self: Bytes)
    requires 0 <= ts < 0x1_0000_0000 && |prefix| < 256
    requires |self| > 0 && WellSized(records, |self|) && self != NullMac(|self|)
    requires forall i, j :: 0 <= i < j < |records| ==> records[i].mac != records[j].mac
    ensures forall k :: 0 <= k < |records| && records[k].mac == self ==>
              Parse(Encode(ts, prefix, records), beyond, self) == SetHlmac(ts, if |prefix| == 255 then [] else prefix + [records[k].id])
    ensures records != [] && (forall k :: 0 <= k < |records| ==> records[k].mac != self) ==>
              Parse(Encode(ts, prefix, records), beyond, self) == Ignored
  {
    var data := Encode(ts, prefix, records);
    HeaderReads(ts, prefix, records, beyond);
    var pos, none := 5 + |prefix|, NullMac(|self|);
    EncodedIsLaid(data, pos, records, |self|);
    forall k | 0 <= k < |records| && records[k].mac == self
      ensures Parse(data, beyond, self) == SetHlmac(ts, if |prefix| == 255 then [] else prefix + [records[k].id])
    {
      ScanHit(data, pos, records, beyond, self, none, 0, k);
    }
    if records != [] && forall k :: 0 <= k < |records| ==> records[k].mac != self {
      ScanMiss(data, pos, records, beyond, self, none, 0);
      assert |EncodeRecords(records)| >= 1;
    }
  }

  /** Hello, Load and Share read back as themselves whatever follows them in memory. */
  lemma ShortPayloadsRoundTrip(load: int, share: int, beyond: Beyond, self: Bytes)
    requires -0x8000_0000 <= load < 0x8000_0000 && -32768 <= share <= 32767
    requires |self| > 0 && self != NullMac(|self|)
    ensures Parse([], beyond, self) == Hello
    ensures Parse(I32Bytes(load), beyond, self) == Load(load)
    ensures Parse(I16Bytes(share), beyond, self) == Share(share)
  {
    IntegersRoundTrip(0, load, share);
  }

  /** What a receiver does with any payload never depends on the memory past its end, if it is no SetHLMAC. */
  lemma ShortPayloadsAreSelfContained(data: Bytes, b1: Beyond, b2: Beyond, self: Bytes)
    requires |data| <= 5 && |self| > 0 && self != NullMac(|self|)
    ensures Parse(data, b1, self) == Parse(data, b2, self)
    ensures !Parse(data, b1, self).SetHlmac?
  {
  }

  /** A payload of another length is a SetHLMAC or nothing. */
  lemma OtherLengthsAreIgnored(data: Bytes, beyond: Beyond, self: Bytes)
    requires |data| != 0 && |data| != 2 && |data| != 4 && |self| > 0 && self != NullMac(|self|)
    ensures Parse(data, beyond, self) == Ignored || (|data| > 5 && Parse(data, beyond, self).SetHlmac?)
  {
    if |data| <= 5 {
      ShortPayloadsAreSelfContained(data, beyond, beyond, self);
    }
  }

  /** Where things lie: four bytes of timestamp, lowest first, the prefix length, the prefix, and records of id and link address. */
  lemma PayloadLayout(ts: int, prefix: Addr, records: seq<Record>, macLen: nat, k: nat)
    requires 0 <= ts < 0x1_0000_0000 && |prefix| < 256 && WellSized(records, macLen) && k < |records|
    ensures var data, at := Encode(ts, prefix, records), 5 + |prefix| + k * (1 + macLen);
            && |data| >= at + 1 + macLen
            && data[0] == ts % 256 && data[4] == |prefix| && data[5..5 + |prefix|] == prefix
            && data[at] == records[k].id && data[at + 1..at + 1 + macLen] == records[k].mac
  {
    var data := Encode(ts, prefix, records);
    assert data[5 + |prefix|..] == EncodeRecords(records);
    RecordLies(data, 5 + |prefix|, records, macLen, k);
  }

  lemma {:induction false} RecordLies(data: Bytes, pos: nat, records: seq<Record>, macLen: nat, k: nat)
    requires WellSized(records, macLen) && k < |records| && pos <= |data| && data[pos..] == EncodeRecords(records)
    ensures var at := pos + k * (1 + macLen);
            |data| >= at + 1 + macLen && data[at] == records[k].id && data[at + 1..at + 1 + macLen] == records[k].mac
    decreases k
  {
    RecordAt(data, pos, records);
    if k > 0 {
      RecordLies(data, pos + 1 + macLen, records[1..], macLen, k - 1);
      assert pos + 1 + macLen + (k - 1) * (1 + macLen) == pos + k * (1 + macLen);
    }
  }

  // ---- the imperative encoder and decoder ----

  method MemCpy(dst: array<Byte>, at: nat, src: Bytes)
    requires at + |src| <= dst.Length
    modifies dst
    ensures dst[..at] == old(dst[..at])
    ensures dst[at..at + |src|] == src
    ensures dst[at + |src|..] == old(dst[at + |src|..])
  {
    var i := 0;
    while i < |src|
      invariant 0 <= i <= |src|
      invariant dst[..at] == old(dst[..at])
      invariant dst[at..at + i] == src[..i]
      invariant dst[at + |src|..] == old(dst[at + |src|..])
    {
      dst[at + i] := src[i];
      i := i + 1;
      assert dst[at..at + i] == dst[at..at + i - 1] + [src[i - 1]];
    }
  }

  /** Copies `src` behind the first `at` bytes. */
  method Append(dst: array<Byte>, at: nat, src: Bytes) returns (len: nat)
    requires at + |src| <= dst.Length
    modifies dst
    ensures len == at + |src| && dst[..len] == old(dst[..at]) + src
  {
    MemCpy(dst, at, src);
    len := at + |src|;
    assert dst[..len] == dst[..at] + dst[at..len];
  }

  /** The bytes one unicast SetHLMAC needs: header, one id, one link address. */
  function UnicastLength(prefix: Addr, macLen: nat): nat { |prefix| + 6 + macLen }

  /**
   * The payload built by iotorii_send_sethlmac for one neighbour. The buffer has
   * maxPayload bytes, so the payload must fit it.
   */
  method EncodeUnicast(ts: int, prefix: Addr, id: Byte, mac: Bytes, maxPayload: nat)
    returns (buf: array<Byte>, len: nat)
    requires 0 <= ts < 0x1_0000_0000 && |prefix| < 256
    requires maxPayload >= UnicastLength(prefix, |mac|)
    ensures fresh(buf) && buf.Length == maxPayload
    ensures len <= maxPayload && buf[..len] == Encode(ts, prefix, [Record(id, mac)])
  {
    buf := new Byte[maxPayload](_ => 0);
    len := Append(buf, 0, U32Bytes(ts));
    len := Append(buf, len, [|prefix|]);
    len := Append(buf, len, prefix);
    assert buf[..len] == Header(ts, prefix);
    len := Append(buf, len, [id]);
    len := Append(buf, len, mac);
    assert EncodeRecords([Record(id, mac)]) == [id] + mac;
    assert buf[..len] == Header(ts, prefix) + ([id] + mac);
  }

  /** The guard before building a SetHLMAC. */
  predicate SendGuard(maxPayload: int, prefix: Addr, macLen: nat)
  {
    maxPayload >= |prefix| + 2 + macLen
  }

  /**
   * The guard leaves out the four timestamp bytes: a payload that passes it fits its buffer
   * if and only if four more bytes are there.
   */
  lemma GuardIsNotEnough(maxPayload: nat, prefix: Addr, macLen: nat, ts: int, id: Byte, mac: Bytes)
    requires 0 <= ts < 0x1_0000_0000 && |prefix| < 256 && |mac| == macLen
    ensures |Encode(ts, prefix, [Record(id, mac)])| <= maxPayload <==> maxPayload >= |prefix| + 6 + macLen
    ensures SendGuard(|prefix| + 2 + macLen, prefix, macLen)
         && |Encode(ts, prefix, [Record(id, mac)])| == |prefix| + 2 + macLen + 4
  {
    assert EncodeRecords([Record(id, mac)]) == [id] + mac + [];
  }

  /** iotorii_extract_timestamp: the number whose encoding stands at the start of the payload. */
  method ExtractTimestamp(data: Bytes, beyond: Beyond) returns (ts: nat)
    ensures ts < 0x1_0000_0000 && U32Bytes(ts) == PeekMany(data, beyond, 0, 4)
    ensures |data| >= 4 ==> U32Bytes(ts) == data[..4]
  {
    var bytes := PeekMany(data, beyond, 0, 4);
    ts := BytesU32(bytes);
    BytesRoundTrip(bytes);
    if |data| >= 4 {
      PeekInside(data, beyond, 0, 4);
      assert data[0..4] == data[..4];
    }
  }

  /** iotorii_extract_address: the unspecified address has no array. */
  method ExtractAddress(data: Bytes, beyond: Beyond, self: Bytes) returns (r: HlmacAddress)
    requires |self| > 0
    ensures fresh(r) && r.Valid()
    ensures r.address == null <==> Extract(data, beyond, self) == None
    ensures Extract(data, beyond, self).Some? ==> r.Ids() == Extract(data, beyond, self).value
  {
    var pos := 4;
    var n := Peek(data, beyond, pos);
    pos := pos + 1;
    var prefix := PeekMany(data, beyond, pos, n);
    r := new HlmacAddress.FromIds(prefix);
    pos := pos + n;
    var link, id: Byte := NullMac(|self|), 0;
    while pos < |data| && link != self
      invariant 0 <= pos
      invariant Scan(data, beyond, self, pos, link, id) == Scan(data, beyond, self, 5 + n, NullMac(|self|), 0)
      invariant r.Valid() && r.Ids() == prefix && r.len == n
      decreases |data| - pos
    {
      id := Peek(data, beyond, pos);
      pos := pos + 1;
      link := PeekMany(data, beyond, pos, |self|);
      pos := pos + |self|;
    }
    if link == self {
      r.AddNewId(id);
    } else {
      r := new HlmacAddress.Unspecified();
    }
  }
}
