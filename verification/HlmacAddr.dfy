/** HLMAC addresses: the struct of hlmacaddr.c, its operations and its order. */
module HlmacAddr {
  import opened Types

  /** The id at position `i`; positions past the end read as 0. */
  function At(a: Addr, i: nat): Byte
  {
    if i < |a| then a[i] else 0
  }

  /** Equal after padding with zeros. */
  predicate PadEqual(a: Addr, b: Addr)
  {
    forall i :: 0 <= i < |a| + |b| ==> At(a, i) == At(b, i)
  }

  /** `a` and `b` agree up to `i` and `a` is smaller there. */
  predicate LessAt(a: Addr, b: Addr, i: nat)
  {
    && (forall j :: 0 <= j < i ==> At(a, j) == At(b, j))
    && At(a, i) < At(b, i)
  }

  /** Strict lexicographic order on zero-padded addresses. */
  ghost predicate LexLess(a: Addr, b: Addr)
  {
    exists i: nat :: LessAt(a, b, i)
  }

  /** No id is zero; ids handed out by a table of at most 255 neighbours are never zero. */
  predicate NonZero(a: Addr)
  {
    forall i :: 0 <= i < |a| ==> a[i] != 0
  }

  /** `p` is a proper prefix of `a`. */
  predicate ProperPrefix(p: Addr, a: Addr)
  {
    p < a
  }

  lemma PadEqualEverywhere(a: Addr, b: Addr)
    ensures PadEqual(a, b) <==> forall i: nat :: At(a, i) == At(b, i)
  {
    if PadEqual(a, b) {
      forall i: nat ensures At(a, i) == At(b, i) {}
    }
  }

  /** Without zero ids, comparing equal is being equal. */
  lemma PadEqualNonZero(a: Addr, b: Addr)
    requires NonZero(a) && NonZero(b)
    ensures PadEqual(a, b) <==> a == b
  {
    if PadEqual(a, b) {
      var x, y := At(b, |a|), At(a, |b|);
      assert |a| < |b| ==> x != 0;
      assert |b| < |a| ==> y != 0;
      forall i | 0 <= i < |a| ensures a[i] == b[i] {
        assert At(a, i) == At(b, i);
      }
    }
  }

  /** PadEqual and LexLess form a total preorder: exactly one of the three holds. */
  lemma Trichotomy(a: Addr, b: Addr)
    ensures PadEqual(a, b) || LexLess(a, b) || LexLess(b, a)
    ensures PadEqual(a, b) ==> !LexLess(a, b) && !LexLess(b, a)
    ensures !(LexLess(a, b) && LexLess(b, a))
  {
    PadEqualEverywhere(a, b);
    if !PadEqual(a, b) {
      var i := FirstDifference(a, b);
      assert LessAt(a, b, i) || LessAt(b, a, i);
    }
  }

  lemma FirstDifference(a: Addr, b: Addr) returns (i: nat)
    requires !PadEqual(a, b)
    ensures forall j :: 0 <= j < i ==> At(a, j) == At(b, j)
    ensures At(a, i) != At(b, i)
  {
    var w :| 0 <= w < |a| + |b| && At(a, w) != At(b, w);
    i := 0;
    while At(a, i) == At(b, i)
      invariant i <= w
      invariant forall j :: 0 <= j < i ==> At(a, j) == At(b, j)
      decreases w - i
    {
      i := i + 1;
    }
  }

  /** After a common beginning the smaller id decides, whatever follows; and zeros at the end do not count. */
  lemma SmallerIdFirst(p: Addr, x: Byte, y: Byte, s: Addr, t: Addr)
    ensures x < y ==> LexLess(p + [x] + s, p + [y] + t) && !LexLess(p + [y] + t, p + [x] + s)
    ensures PadEqual(p, p + [0])
  {
    var a, b := p + [x] + s, p + [y] + t;
    if x < y {
      assert LessAt(a, b, |p|);
      Trichotomy(a, b);
    }
  }

  /** The order is transitive, and comparing equal is a congruence for it. */
  lemma LexTransitive(a: Addr, b: Addr, c: Addr)
    ensures LexLess(a, b) && LexLess(b, c) ==> LexLess(a, c)
    ensures LexLess(a, b) && PadEqual(b, c) ==> LexLess(a, c)
    ensures PadEqual(a, b) && LexLess(b, c) ==> LexLess(a, c)
    ensures PadEqual(a, b) && PadEqual(b, c) ==> PadEqual(a, c)
  {
    PadEqualEverywhere(a, b);
    PadEqualEverywhere(b, c);
    PadEqualEverywhere(a, c);
    if LexLess(a, b) && LexLess(b, c) {
      var i: nat :| LessAt(a, b, i);
      var j: nat :| LessAt(b, c, j);
      var k := Min(i, j);
      assert LessAt(a, c, k);
    }
    if LexLess(a, b) && PadEqual(b, c) {
      var i: nat :| LessAt(a, b, i);
      assert LessAt(a, c, i);
    }
    if PadEqual(a, b) && LexLess(b, c) {
      var i: nat :| LessAt(b, c, i);
      assert LessAt(a, c, i);
    }
  }

  /**
   * hlmac_cmp: 0 for equal modulo trailing zeros, +1 when the second is larger,
   * -1 when the first is; -2 is never returned.
   */
  method Cmp(addr1: Addr, addr2: Addr) returns (r: int)
    ensures r == 0 || r == 1 || r == -1
    ensures r == 0 <==> PadEqual(addr1, addr2)
    ensures r == 1 <==> LexLess(addr1, addr2)
    ensures r == -1 <==> LexLess(addr2, addr1)
  {
    Trichotomy(addr1, addr2);
    var minLen := if |addr1| < |addr2| then |addr1| else |addr2|;
    var i := 0;
    while i < minLen
      invariant 0 <= i <= minLen
      invariant forall j :: 0 <= j < i ==> addr1[j] == addr2[j]
    {
      if addr1[i] < addr2[i] {
        assert LessAt(addr1, addr2, i);
        return 1;
      } else if addr1[i] > addr2[i] {
        assert LessAt(addr2, addr1, i);
        return -1;
      }
      i := i + 1;
    }
    if |addr1| == |addr2| {
      return 0;
    }
    if |addr1| < |addr2| {
      while i < |addr2|
        invariant |addr1| <= i <= |addr2|
        invariant forall j :: 0 <= j < i ==> At(addr1, j) == At(addr2, j)
      {
        if addr2[i] > 0 {
          assert LessAt(addr1, addr2, i);
          return 1;
        }
        i := i + 1;
      }
      return 0;
    }
    while i < |addr1|
      invariant |addr2| <= i <= |addr1|
      invariant forall j :: 0 <= j < i ==> At(addr1, j) == At(addr2, j)
    {
      if addr1[i] > 0 {
        assert LessAt(addr2, addr1, i);
        return -1;
      }
      i := i + 1;
    }
    return 0;
  }

  /** `hlmacaddr_t`: a heap array and an 8-bit length. */
  class HlmacAddress {
    var address: array?<Byte>
    var len: Byte

    ghost predicate Valid()
      reads this
    {
      if address == null then len == 0 else len <= address.Length
    }

    ghost function Ids(): Addr
      requires Valid()
      reads this, address
    {
      if address == null then [] else address[..len]
    }

    /** A struct holding a private copy of `ids`. */
    constructor FromIds(ids: Addr)
      requires |ids| < 256
      ensures Valid() && Ids() == ids && len == |ids|
      ensures address != null && fresh(address)
    {
      len := |ids|;
      address := new Byte[|ids|](i requires 0 <= i < |ids| => ids[i]);
    }

    /** UNSPECIFIED_HLMAC_ADDRESS */
    constructor Unspecified()
      ensures Valid() && address == null
    {
      address := null;
      len := 0;
    }

    /** hlmac_create_root_addr */
    method CreateRootAddr(rootId: Byte)
      modifies this
      ensures Valid() && Ids() == [rootId]
      ensures address != null && fresh(address)
    {
      address := new Byte[1](_ => rootId);
      len := 1;
    }

    /** hlmac_is_unspecified_addr: no ids and no array. */
    method IsUnspecified() returns (r: bool)
      requires Valid()
      ensures r <==> address == null
    {
      r := len == 0 && address == null;
    }

    /** get_addr_index_value: an index out of range reads as 0. */
    method GetIndexValue(k: Byte) returns (v: Byte)
      requires Valid()
      ensures v == At(Ids(), k)
    {
      if k < len { v := address[k]; } else { v := 0; }
    }

    /** hlmac_get_address: a copy of the ids. */
    method Copy() returns (ids: Addr)
      requires Valid()
      ensures ids == Ids()
    {
      ids := [];
      var i := 0;
      while i < len
        invariant 0 <= i <= len && ids == Ids()[..i]
      {
        ids := ids + [address[i]];
        i := i + 1;
      }
    }

    /** hlmac_add_new_id: the length is 8 bits wide, so it wraps after 255 ids. */
    method AddNewId(newId: Byte)
      requires Valid()
      modifies this
      ensures Valid()
      ensures address != null && fresh(address)
      ensures old(len) < 255 ==> Ids() == old(Ids()) + [newId]
      ensures old(len) == 255 ==> Ids() == []
    {
      var temp := address;
      var grown := new Byte[len + 1](_ => 0);
      var i := 0;
      while i < len
        invariant 0 <= i <= len && len == old(len) && address == temp
        invariant len > 0 ==> temp != null && len <= temp.Length
        invariant forall j :: 0 <= j < i ==> grown[j] == temp[j]
      {
        grown[i] := temp[i];
        i := i + 1;
      }
      grown[i] := newId;
      address := grown;
      len := (len + 1) % 256;
      assert old(len) < 255 ==> address[..len] == old(Ids()) + [newId];
    }

    /** hlmac_remove_Last_id: dropping the only id leaves the unspecified address. */
    method RemoveLastId()
      requires Valid()
      modifies this
      ensures Valid()
      ensures old(len) == 0 ==> address == old(address) && len == 0
      ensures old(len) == 1 ==> address == null
      ensures old(len) > 1 ==> address != null && fresh(address)
      ensures old(len) > 0 ==> Ids() == old(Ids())[..old(len) - 1] && len == old(len) - 1
    {
      if len == 0 {
        return;
      }
      if len == 1 {
        address := null;
        len := 0;
        return;
      }
      var temp := address;
      var cut := new Byte[len - 1](_ => 0);
      var i := 0;
      while i < len - 1
        invariant 0 <= i <= len - 1 && len == old(len) && address == temp
        invariant forall j :: 0 <= j < i ==> cut[j] == temp[j]
      {
        cut[i] := temp[i];
        i := i + 1;
      }
      address := cut;
      len := len - 1;
      assert address[..len] == old(Ids())[..old(len) - 1];
    }
  }

  /** Appending an id and removing it again gives the address back. */
  method AddThenRemove(a: HlmacAddress, id: Byte)
    requires a.Valid() && a.len < 255
    modifies a
    ensures a.Valid() && a.Ids() == old(a.Ids())
  {
    a.AddNewId(id);
    a.RemoveLastId();
  }
}
