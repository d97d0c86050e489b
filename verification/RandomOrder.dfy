/**
 * The random sending order of iotorii_send_sethlmac: every neighbour except the
 * sender gets a slot of its own in `random_list`.
 */
module RandomOrder {
  import opened Types
  import opened NodeModel

  /** The table without `sender`, in table order. */
  function Others(nbrs: seq<Nbr>, sender: LinkId): (r: seq<Nbr>)
    ensures forall x :: x in r <==> x in nbrs && x.addr != sender
  {
    if nbrs == [] then []
    else
      var l := |nbrs| - 1;
      var r := Others(nbrs[..l], sender);
      assert nbrs == nbrs[..l] + [nbrs[l]];
      if nbrs[l].addr == sender then r else r + [nbrs[l]]
  }

  /** With distinct addresses at most one entry is left out. */
  lemma {:induction false} OthersLength(nbrs: seq<Nbr>, sender: LinkId)
    requires Distinct(nbrs)
    ensures |Others(nbrs, sender)| == if HasNbr(nbrs, sender) then |nbrs| - 1 else |nbrs|
  {
    if nbrs != [] {
      var l := |nbrs| - 1;
      OthersLength(nbrs[..l], sender);
      if nbrs[l].addr == sender {
        assert !HasNbr(nbrs[..l], sender);
      } else {
        assert HasNbr(nbrs, sender) <==> HasNbr(nbrs[..l], sender) by {
          if i :| 0 <= i < |nbrs| && nbrs[i].addr == sender {
            assert nbrs[..l][i].addr == sender;
          }
        }
      }
    }
  }

  /** `number_of_neighbours_new`: the count, less one when the sender is in the table. */
  method CountOthers(nbrs: seq<Nbr>, sender: LinkId, numberOfNeighbours: nat) returns (count: Byte)
    requires numberOfNeighbours == |nbrs| && Distinct(nbrs)
    ensures |nbrs| <= 255 ==> count == |Others(nbrs, sender)|
    ensures |nbrs| == 256 ==> count == if HasNbr(nbrs, sender) then 255 else 0
  {
    OthersLength(nbrs, sender);
    var n: int := numberOfNeighbours % 256;
    var i := 0;
    while i < |nbrs|
      invariant 0 <= i <= |nbrs|
      invariant n == if HasNbr(nbrs[..i], sender) then (numberOfNeighbours - 1) % 256 else numberOfNeighbours % 256
    {
      assert nbrs[..i + 1] == nbrs[..i] + [nbrs[i]];
      assert HasNbr(nbrs[..i + 1], sender) <==> HasNbr(nbrs[..i], sender) || nbrs[i].addr == sender by {
        if j :| 0 <= j < i && nbrs[..i][j].addr == sender { assert nbrs[..i + 1][j].addr == sender; }
        if nbrs[i].addr == sender { assert nbrs[..i + 1][i].addr == sender; }
      }
      if nbrs[i].addr == sender {
        n := (numberOfNeighbours - 1) % 256;
      }
      i := i + 1;
    }
    assert nbrs[..|nbrs|] == nbrs;
    count := n;
  }

  /** The slots hold exactly `placed`, the rest are free. */
  ghost predicate Filled(slots: seq<Option<Nbr>>, placed: seq<Nbr>)
  {
    && |placed| <= |slots|
    && multiset(slots)[None] == |slots| - |placed|
    && forall x: Nbr :: multiset(slots)[Some(x)] == multiset(placed)[x]
  }

  /** A free slot exists whenever a neighbour is still to be placed. */
  lemma FreeSlotExists(slots: seq<Option<Nbr>>, placed: seq<Nbr>)
    requires Filled(slots, placed) && |placed| < |slots|
    ensures exists r :: 0 <= r < |slots| && slots[r] == None
  {
    assert None in multiset(slots);
    assert None in slots;
  }

  lemma FillOne(slots: seq<Option<Nbr>>, placed: seq<Nbr>, r: nat, x: Nbr)
    requires Filled(slots, placed) && r < |slots| && slots[r] == None && |placed| < |slots|
    ensures Filled(slots[r := Some(x)], placed + [x])
  {
    assert multiset(slots[r := Some(x)]) == multiset(slots) - multiset{None} + multiset{Some(x)};
    assert multiset(placed + [x]) == multiset(placed) + multiset{x};
  }

  /** When every slot is taken the slots are a permutation of what was placed. */
  lemma FilledIsPermutation(slots: seq<Option<Nbr>>, placed: seq<Nbr>)
    requires Filled(slots, placed) && |placed| == |slots|
    ensures forall i :: 0 <= i < |slots| ==> slots[i].Some?
    ensures multiset(Values(slots)) == multiset(placed)
  {
    forall i | 0 <= i < |slots| ensures slots[i].Some? {
      assert slots[i] in multiset(slots);
    }
    forall x: Nbr ensures multiset(Values(slots))[x] == multiset(slots)[Some(x)] {
      ValuesCount(slots, x);
    }
  }

  function Values(slots: seq<Option<Nbr>>): (r: seq<Nbr>)
    ensures |r| <= |slots|
  {
    if slots == [] then []
    else
      var l := |slots| - 1;
      Values(slots[..l]) + if slots[l].Some? then [slots[l].value] else []
  }

  /** Slots that are all taken keep their order. */
  lemma {:induction false} ValuesAll(slots: seq<Option<Nbr>>)
    requires forall i :: 0 <= i < |slots| ==> slots[i].Some?
    ensures |Values(slots)| == |slots|
    ensures forall i :: 0 <= i < |slots| ==> Values(slots)[i] == slots[i].value
  {
    if slots != [] {
      ValuesAll(slots[..|slots| - 1]);
    }
  }

  lemma {:induction false} ValuesCount(slots: seq<Option<Nbr>>, x: Nbr)
    ensures multiset(Values(slots))[x] == multiset(slots)[Some(x)]
  {
    if slots != [] {
      var l := |slots| - 1;
      ValuesCount(slots[..l], x);
      assert slots == slots[..l] + [slots[l]];
    }
  }

  /** Draws a free position for `x`; the draws of the source stop at some free position. */
  method PlaceOne(slots: array<Option<Nbr>>, ghost placed: seq<Nbr>, x: Nbr)
    requires Filled(slots[..], placed) && |placed| < slots.Length
    modifies slots
    ensures Filled(slots[..], placed + [x])
  {
    FreeSlotExists(slots[..], placed);
    var r :| 0 <= r < slots.Length && slots[r] == None;
    FillOne(slots[..], placed, r, x);
    ghost var after := slots[..][r := Some(x)];
    slots[r] := Some(x);
    assert slots[..] == after;
  }

  /** Fills `random_list` with every neighbour but the sender. */
  method PlaceRandomly(nbrs: seq<Nbr>, sender: LinkId, count: nat) returns (slots: array<Option<Nbr>>)
    requires count == |Others(nbrs, sender)|
    ensures fresh(slots) && slots.Length == count
    ensures forall i :: 0 <= i < count ==> slots[..][i].Some?
    ensures multiset(Values(slots[..])) == multiset(Others(nbrs, sender))
  {
    slots := new Option<Nbr>[count](_ => None);
    AllNone(slots[..]);
    var i := 0;
    while i < |nbrs|
      invariant 0 <= i <= |nbrs|
      invariant Filled(slots[..], Others(nbrs[..i], sender))
    {
      OthersStep(nbrs, sender, i);
      if nbrs[i].addr != sender {
        PlaceOne(slots, Others(nbrs[..i], sender), nbrs[i]);
      }
      i := i + 1;
    }
    assert nbrs[..|nbrs|] == nbrs;
    FilledIsPermutation(slots[..], Others(nbrs, sender));
  }

  lemma OthersStep(nbrs: seq<Nbr>, sender: LinkId, i: nat)
    requires i < |nbrs|
    ensures Others(nbrs[..i + 1], sender) == Others(nbrs[..i], sender) + if nbrs[i].addr == sender then [] else [nbrs[i]]
    ensures nbrs[i].addr != sender ==> |Others(nbrs[..i], sender)| < |Others(nbrs, sender)|
  {
    assert nbrs[..i + 1][..i] == nbrs[..i];
    OthersPrefix(nbrs, sender, i + 1);
  }

  lemma {:induction false} AllNone(slots: seq<Option<Nbr>>)
    requires forall i :: 0 <= i < |slots| ==> slots[i] == None
    ensures Filled(slots, [])
  {
    if slots != [] {
      var l := |slots| - 1;
      AllNone(slots[..l]);
      assert slots == slots[..l] + [slots[l]];
    }
  }

  lemma OthersNext(nbrs: seq<Nbr>, sender: LinkId, i: nat)
    requires i < |nbrs|
    ensures |Others(nbrs[..i], sender)| <= |Others(nbrs[..i + 1], sender)|
  {
    assert nbrs[..i + 1][..i] == nbrs[..i];
  }

  lemma {:induction false} OthersPrefix(nbrs: seq<Nbr>, sender: LinkId, i: nat)
    requires i <= |nbrs|
    ensures |Others(nbrs[..i], sender)| <= |Others(nbrs, sender)|
    decreases |nbrs| - i
  {
    if i < |nbrs| {
      OthersNext(nbrs, sender, i);
      OthersPrefix(nbrs, sender, i + 1);
    } else {
      assert nbrs[..i] == nbrs;
    }
  }

  // ---- from neighbours to messages ----

  function MsgFor(x: Nbr, addr: Addr, ts: nat): Out
  {
    Out(Some(x.addr), SetHlmac(ts, addr, x.id))
  }

  function Msgs(xs: seq<Nbr>, addr: Addr, ts: nat): (r: seq<Out>)
    ensures |r| == |xs|
    ensures forall i :: 0 <= i < |xs| ==> r[i] == MsgFor(xs[i], addr, ts)
  {
    seq(|xs|, i requires 0 <= i < |xs| => MsgFor(xs[i], addr, ts))
  }

  /** The messages of a round, in table order, are those for the other neighbours. */
  lemma {:induction false} SetHlmacsAreMsgs(nbrs: seq<Nbr>, sender: LinkId, addr: Addr, ts: nat)
    ensures SetHlmacs(nbrs, sender, addr, ts) == Msgs(Others(nbrs, sender), addr, ts)
  {
    if nbrs != [] {
      SetHlmacsAreMsgs(nbrs[..|nbrs| - 1], sender, addr, ts);
    }
  }

  /** The messages the 8-bit count of neighbours leaves room for: none with 256 besides the sender. */
  function Wanted(nbrs: seq<Nbr>, sender: LinkId, addr: Addr, ts: nat): seq<Out>
  {
    if |nbrs| == 256 && !HasNbr(nbrs, sender) then [] else SetHlmacs(nbrs, sender, addr, ts)
  }

  // ---- the 8-bit index of the send loop ----

  /** The index before the pass numbered `k`, counted from 0; it starts at 1. */
  function SendIndex(k: nat): Byte { (1 + k) % 256 }

  /** The slot pass `k` takes id and address from, before the index is counted up. */
  function RecordSlot(k: nat): int { SendIndex(k) - 1 }

  /** The slot pass `k` takes the destination from, after the index was counted up. */
  function DestSlot(k: nat): int { SendIndex(k + 1) - 2 }

  /** The loop's own test whether pass `k` follows the one before. */
  predicate GoesOn(k: nat, count: Byte) { SendIndex(k) <= count }

  /**
   * The send loop ends if and only if there are at most 254 neighbours to send to; then it makes
   * one pass for each, and every pass writes to the neighbour it assigns. With 255 the index wraps: the
   * last of them takes its destination from slot -2, and the loop goes on for ever.
   */
  lemma SendLoopEnds(count: Byte)
    requires count > 0
    ensures (exists k: nat :: !GoesOn(k, count)) <==> count <= 254
    ensures count <= 254 ==>
              && !GoesOn(count, count)
              && forall k: nat :: k < count ==> GoesOn(k, count) && RecordSlot(k) == DestSlot(k) == k
    ensures count == 255 ==> RecordSlot(254) == 254 && DestSlot(254) == -2
  {
    if count <= 254 {
      assert !GoesOn(count, count);
    }
  }

  /** The send loop over the neighbours other than `sender` ends. */
  predicate SendEnds(nbrs: seq<Nbr>, sender: LinkId)
  {
    |Others(nbrs, sender)| <= 254
  }

  /** ... whatever is recorded about them. */
  lemma SendStillEnds(a: seq<Nbr>, b: seq<Nbr>, sender: LinkId)
    requires SameAddrs(a, b) && Distinct(a) && SendEnds(a, sender)
    ensures Distinct(b) && SendEnds(b, sender)
  {
    SameAddrsKeep(a, b, sender);
    OthersLength(a, sender);
    OthersLength(b, sender);
  }

  lemma WantedCount(nbrs: seq<Nbr>, sender: LinkId, addr: Addr, ts: nat)
    requires Distinct(nbrs) && |nbrs| <= 256
    ensures |SetHlmacs(nbrs, sender, addr, ts)| == |Others(nbrs, sender)|
    ensures SendEnds(nbrs, sender) ==> |nbrs| <= 255
    ensures |nbrs| == 256 && HasNbr(nbrs, sender) ==> |Others(nbrs, sender)| == 255
  {
    SetHlmacsAreMsgs(nbrs, sender, addr, ts);
    OthersLength(nbrs, sender);
  }

  lemma MsgsConcat(xs: seq<Nbr>, ys: seq<Nbr>, addr: Addr, ts: nat)
    ensures multiset(Msgs(xs + ys, addr, ts)) == multiset(Msgs(xs, addr, ts)) + multiset(Msgs(ys, addr, ts))
  {
    assert Msgs(xs + ys, addr, ts) == Msgs(xs, addr, ts) + Msgs(ys, addr, ts);
  }

  /** Takes one occurrence of `x` out. */
  lemma Without(ys: seq<Nbr>, x: Nbr) returns (l: seq<Nbr>, r: seq<Nbr>)
    requires x in multiset(ys)
    ensures ys == l + ([x] + r)
    ensures multiset(l + r) == multiset(ys) - multiset{x}
  {
    var j :| 0 <= j < |ys| && ys[j] == x;
    l, r := ys[..j], ys[j + 1..];
    assert ys == l + ([x] + r);
  }

  /** Permuting the neighbours permutes the messages. */
  lemma {:induction false} MsgsPermute(xs: seq<Nbr>, ys: seq<Nbr>, addr: Addr, ts: nat)
    requires multiset(xs) == multiset(ys)
    ensures multiset(Msgs(xs, addr, ts)) == multiset(Msgs(ys, addr, ts))
    decreases |xs|
  {
    if xs == [] {
      assert |multiset(ys)| == 0;
    } else {
      var x := xs[0];
      assert xs == [x] + xs[1..];
      assert multiset(xs[1..]) == multiset(xs) - multiset{x};
      var l, r := Without(ys, x);
      MsgsPermute(xs[1..], l + r, addr, ts);
      MsgsConcat([x], xs[1..], addr, ts);
      MsgsConcat(l, [x] + r, addr, ts);
      MsgsConcat([x], r, addr, ts);
      MsgsConcat(l, r, addr, ts);
    }
  }
}
