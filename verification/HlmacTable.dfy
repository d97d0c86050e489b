/** The table of addresses a node holds (hlmac-table.c). */
module HlmacTable {
  import opened Types
  import opened HlmacAddr

  datatype TableEntry = TableEntry(address: Addr, timestamp: nat)

  /** Some entry compares equal to `p`. */
  predicate Matches(entries: seq<TableEntry>, p: Addr)
  {
    exists i :: 0 <= i < |entries| && PadEqual(entries[i].address, p)
  }

  /** The longest non-empty prefix of `p`, `p` included, that matches an entry; `[]` if none does. */
  function LongestMatch(entries: seq<TableEntry>, p: Addr): (r: Addr)
    ensures r <= p
    ensures r != [] ==> Matches(entries, r)
    ensures forall k :: |r| < k <= |p| ==> !Matches(entries, p[..k])
  {
    if p == [] then []
    else if Matches(entries, p) then p
    else
      var q := p[..|p| - 1];
      var r := LongestMatch(entries, q);
      assert forall k :: 0 <= k <= |q| ==> p[..k] == q[..k];
      assert p[..|p|] == p;
      r
  }

  /** Some proper non-empty prefix of `a` matches an entry. */
  predicate HasLoop(entries: seq<TableEntry>, a: Addr)
    requires |a| > 0
  {
    LongestMatch(entries, a[..|a| - 1]) != []
  }

  /** With non-zero ids, a loop is an entry that is a proper prefix of the address. */
  lemma HasLoopIsProperPrefix(entries: seq<TableEntry>, a: Addr)
    requires |a| > 0 && NonZero(a)
    requires forall i :: 0 <= i < |entries| ==> NonZero(entries[i].address) && entries[i].address != []
    ensures HasLoop(entries, a) <==>
            exists i :: 0 <= i < |entries| && ProperPrefix(entries[i].address, a)
  {
    var p := a[..|a| - 1];
    var r := LongestMatch(entries, p);
    if r != [] {
      var i :| 0 <= i < |entries| && PadEqual(entries[i].address, r);
      PadEqualNonZero(entries[i].address, r);
      assert ProperPrefix(entries[i].address, a);
    }
    if i :| 0 <= i < |entries| && ProperPrefix(entries[i].address, a) {
      var e := entries[i].address;
      assert e == p[..|e|];
      PadEqualNonZero(e, p[..|e|]);
      assert Matches(entries, p[..|e|]);
    }
  }

  /** The entries that survive an arrival at `timestamp`: none if the head is older. */
  function Kept(entries: seq<TableEntry>, timestamp: nat): seq<TableEntry>
  {
    if |entries| > 0 && timestamp > entries[0].timestamp then [] else entries
  }

  /** Whether one more address is taken; `maxHlmac == -1` means no limit below the 255 of the counter. */
  predicate HasRoom(entries: seq<TableEntry>, maxHlmac: int)
  {
    |entries| < 255 && (maxHlmac == -1 || |entries| < maxHlmac)
  }

  /** The table after offering `addr` at `timestamp`. */
  function Added(entries: seq<TableEntry>, addr: Addr, timestamp: nat, maxHlmac: int): seq<TableEntry>
  {
    var kept := Kept(entries, timestamp);
    if HasRoom(kept, maxHlmac) then kept + [TableEntry(addr, timestamp)] else kept
  }

  /** Offers one after the other. */
  function AddAll(entries: seq<TableEntry>, offers: seq<TableEntry>, maxHlmac: int): seq<TableEntry>
  {
    if offers == [] then entries
    else
      var l := |offers| - 1;
      Added(AddAll(entries, offers[..l], maxHlmac), offers[l].address, offers[l].timestamp, maxHlmac)
  }

  /** How many addresses a table holds: the limit, but 255 at most. */
  function Capacity(maxHlmac: int): nat
    requires maxHlmac == -1 || maxHlmac >= 1
  {
    if maxHlmac == -1 then 255 else Min(maxHlmac, 255)
  }

  /** First come, first served: of offers none of which is newer than the first the table takes the first ones, up to its capacity. */
  lemma {:induction false} FirstComeFirstServed(offers: seq<TableEntry>, maxHlmac: int)
    requires (maxHlmac == -1 || maxHlmac >= 1) && forall i :: 0 <= i < |offers| ==> offers[i].timestamp <= offers[0].timestamp
    ensures AddAll([], offers, maxHlmac) == offers[..Min(|offers|, Capacity(maxHlmac))]
  {
    if offers != [] {
      var l := |offers| - 1;
      FirstComeFirstServed(offers[..l], maxHlmac);
    }
  }

  /** A newer offer clears the table and is the one entry. */
  lemma NewerClears(entries: seq<TableEntry>, e: TableEntry, maxHlmac: int)
    requires (maxHlmac == -1 || maxHlmac >= 1) && forall i :: 0 <= i < |entries| ==> entries[i].timestamp < e.timestamp
    ensures Added(entries, e.address, e.timestamp, maxHlmac) == [e]
  {
  }

  /** The global list and its 8-bit counter. */
  class Table {
    const maxHlmac: int
    var entries: seq<TableEntry>
    var count: Byte

    ghost predicate Valid()
      reads this
    {
      count == |entries|
    }

    /** hlmac_table_init */
    constructor (maxHlmac: int)
      ensures Valid() && entries == [] && this.maxHlmac == maxHlmac
    {
      this.maxHlmac := maxHlmac;
      entries := [];
      count := 0;
    }

    /** hlmactable_clean */
    method Clean()
      modifies this
      ensures Valid() && entries == []
    {
      var rest := entries;
      while rest != [] {
        rest := rest[1..];
      }
      entries := rest;
      count := 0;
    }

    /** hlmactable_add: first-come, one timestamp at a time. */
    method Add(addr: Addr, timestamp: nat) returns (added: bool)
      requires Valid()
      modifies this
      ensures Valid()
      ensures entries == Added(old(entries), addr, timestamp, maxHlmac)
      ensures added <==> HasRoom(Kept(old(entries), timestamp), maxHlmac)
    {
      if count > 0 {
        if timestamp > entries[0].timestamp {
          Clean();
        }
      }
      if count >= 255 {
        return false;
      }
      if maxHlmac == -1 || (maxHlmac != -1 && count < maxHlmac) {
        entries := entries + [TableEntry(addr, timestamp)];
        count := count + 1;
        return true;
      } else {
        return false;
      }
    }

    /** hlmactable_chop drops the newest entry. On an empty list the 8-bit count wraps to 255 and no longer fits the list. */
    method Chop()
      requires Valid()
      modifies this
      ensures entries == if old(entries) == [] then [] else old(entries)[..|old(entries)| - 1]
      ensures count == (old(count) + 255) % 256
      ensures Valid() <==> old(entries) != []
    {
      if entries != [] {
        entries := entries[..|entries| - 1];
      }
      count := (count + 255) % 256;
    }

    /** The scan of the list inside hlmactable_get_longest_matchhed_prefix. */
    method Contains(ids: Addr) returns (found: bool)
      ensures found <==> Matches(entries, ids)
    {
      var i := 0;
      while i < |entries|
        invariant 0 <= i <= |entries|
        invariant forall j :: 0 <= j < i ==> !PadEqual(entries[j].address, ids)
      {
        var c := Cmp(entries[i].address, ids);
        if c == 0 {
          return true;
        }
        i := i + 1;
      }
      return false;
    }

    /** The loop of hlmactable_get_longest_matchhed_prefix: drops ids until an entry matches or none is left. */
    method ShortenToMatch(addr: HlmacAddress)
      requires addr.Valid()
      modifies addr
      ensures addr.Valid() && addr.Ids() == LongestMatch(entries, old(addr.Ids()))
      ensures old(addr.len) == 0 ==> addr.address == old(addr.address)
      ensures old(addr.len) > 0 ==> (addr.address == null <==> addr.Ids() == [])
    {
      ghost var p := addr.Ids();
      while addr.len > 0
        invariant addr.Valid() && LongestMatch(entries, addr.Ids()) == LongestMatch(entries, p)
        invariant if p == [] then addr.address == old(addr.address) && addr.len == 0 else addr.address == null <==> addr.len == 0
        decreases addr.len
      {
        var ids := addr.Copy();
        var found := Contains(ids);
        if found {
          return;
        }
        addr.RemoveLastId();
      }
    }

    /** hlmactable_get_longest_matchhed_prefix works on a copy without the last id. */
    method GetLongestMatchedPrefix(address: Addr) returns (addr: HlmacAddress)
      requires Valid() && |address| < 256
      ensures fresh(addr) && addr.Valid()
      ensures |address| > 0 ==> addr.Ids() == LongestMatch(entries, address[..|address| - 1])
      ensures |address| > 0 ==> (addr.address == null <==> addr.Ids() == [])
      ensures |address| == 0 ==> addr.address != null && addr.Ids() == []
    {
      addr := new HlmacAddress.FromIds(address);
      addr.RemoveLastId();
      ShortenToMatch(addr);
    }

    /** hlmactable_has_loop; an empty address counts as a loop, because its copy is not NULL. */
    method HasLoopCheck(addr: Addr) returns (loops: bool)
      requires Valid() && |addr| < 256
      ensures |addr| > 0 ==> (loops <==> HasLoop(entries, addr))
      ensures |addr| == 0 ==> loops
    {
      var longest := GetLongestMatchedPrefix(addr);
      var unspecified := longest.IsUnspecified();
      loops := !unspecified;
    }
  }
}
