/** What the address tree guarantees over whole histories. */
module AddressTheorems {
  import opened Types
  import opened HlmacAddr
  import opened HlmacTable
  import opened NodeModel
  import opened RoundLocal
  import opened Round
  import opened AddressTree
  import RoundTree

  /** The node an address leads to: from the root, follow the ids through the neighbour tables. */
  function NodeAt(c: Config, a: Addr): Option<nat>
    requires |c.nbrs| == c.n
  {
    if a == [] then None
    else if |a| == 1 then (if a == [1] then Some(c.root) else None)
    else match NodeAt(c, a[..|a| - 1])
      case None => None
      case Some(u) =>
        var id := a[|a| - 1];
        if u < c.n && 1 <= id <= |c.nbrs[u]| then Some(c.nbrs[u][id - 1]) else None
  }

  /** Every log is in order; all that following parents needs. */
  ghost predicate LogsOk(c: Config, w: World)
  {
    && ConfigOk(c) && |w.nodes| == |w.log| == c.n
    && forall v :: 0 <= v < c.n ==> LogOk(c, w, v)
  }

  /** An address other than the root's own came from a neighbour that holds all of it but the last id. */
  lemma LastHop(c: Config, w: World, v: nat, ts: nat, addr: Addr) returns (u: nat)
    requires ConfigOk(c) && |w.nodes| == |w.log| == c.n && v < c.n && LogOk(c, w, v) && Holds(w, v, ts, addr)
    ensures addr != []
    ensures !(v == c.root && addr == [1]) ==>
              && |addr| >= 2 && u < c.n && v in c.nbrs[u] && addr[|addr| - 1] == IdIn(c.nbrs[u], v)
              && Holds(w, u, ts, addr[..|addr| - 1])
  {
    var i :| 0 <= i < |w.log[v]| && w.log[v][i].ts == ts && w.log[v][i].addr == addr;
    GivenHop(c, w, v, w.log[v][i]);
    u := w.log[v][i].from;
  }

  lemma GivenHop(c: Config, w: World, v: nat, a: Accepting)
    requires ConfigOk(c) && |w.log| == c.n && v < c.n && Given(c, w, v, a)
    ensures a.addr != []
    ensures !(v == c.root && a.addr == [1]) ==>
              && |a.addr| >= 2 && a.from < c.n && v in c.nbrs[a.from] && a.addr[|a.addr| - 1] == IdIn(c.nbrs[a.from], v)
              && Holds(w, a.from, a.ts, a.addr[..|a.addr| - 1])
  {
  }

  /** An address is accepted only by the node it leads to, whatever was lost, duplicated or reordered. */
  lemma {:induction false} HeldWhereItLeads(c: Config, w: World, v: nat, ts: nat, addr: Addr)
    requires LogsOk(c, w) && v < c.n && Holds(w, v, ts, addr)
    ensures NodeAt(c, addr) == Some(v)
    decreases |addr|
  {
    var u := LastHop(c, w, v, ts, addr);
    if !(v == c.root && addr == [1]) {
      HeldWhereItLeads(c, w, u, ts, addr[..|addr| - 1]);
      RoundTree.IdFound(c.nbrs[u], v);
    }
  }

  /** In each round an address names one node. */
  lemma AddressInjective(c: Config, w: World, v: nat, u: nat, ts: nat, addr: Addr, maxHlmac: int)
    requires WorldInv(c, w, maxHlmac) && v < c.n && u < c.n && Holds(w, v, ts, addr) && Holds(w, u, ts, addr)
    ensures v == u
  {
    HeldWhereItLeads(c, w, v, ts, addr);
    HeldWhereItLeads(c, w, u, ts, addr);
  }

  /** Following parents: every non-empty prefix is held in the same round by the node it leads to, down to [1] at the root. */
  lemma {:induction false} PrefixHeld(c: Config, w: World, v: nat, ts: nat, addr: Addr, l: nat) returns (x: nat)
    requires LogsOk(c, w) && v < c.n && Holds(w, v, ts, addr) && 1 <= l <= |addr|
    ensures x < c.n && NodeAt(c, addr[..l]) == Some(x) && Holds(w, x, ts, addr[..l])
    ensures l == 1 ==> x == c.root && addr[..l] == [1]
    decreases |addr|
  {
    var u := LastHop(c, w, v, ts, addr);
    if l == |addr| {
      x := v;
      assert addr[..l] == addr;
      HeldWhereItLeads(c, w, v, ts, addr);
    } else {
      var p := addr[..|addr| - 1];
      x := PrefixHeld(c, w, u, ts, p, l);
      assert p[..l] == addr[..l];
    }
  }

  /** `u` gave `v` the address: it holds all of it but the last id, which is its id for `v`. */
  ghost predicate Gave(c: Config, w: World, u: nat, v: nat, ts: nat, addr: Addr)
    requires |c.nbrs| == |w.log|
  {
    && u < |w.log| && v in c.nbrs[u] && |addr| >= 2
    && Holds(w, u, ts, addr[..|addr| - 1]) && addr[|addr| - 1] == IdIn(c.nbrs[u], v)
  }

  /**
   * The address tree of every history, with loss, duplication, reordering and overlapping
   * rounds: an address is held by one node, the one it leads to, and unless it is the root's
   * own it extends the address of the same round of a neighbour by that neighbour's id.
   */
  lemma TreeOfEveryHistory(c: Config, run: seq<World>, i: nat, v: nat, ts: nat, addr: Addr, maxHlmac: int)
    requires IsHistory(c, run, maxHlmac) && (maxHlmac == -1 || maxHlmac >= 1) && i < |run|
    requires v < c.n == |run[i].log| == |c.nbrs| && Holds(run[i], v, ts, addr)
    ensures NodeAt(c, addr) == Some(v)
    ensures forall u: nat :: u < c.n && Holds(run[i], u, ts, addr) ==> u == v
    ensures (v == c.root && addr == [1]) || exists u: nat :: Gave(c, run[i], u, v, ts, addr)
  {
    HistoryInv(c, run, i, maxHlmac);
    HeldWhereItLeads(c, run[i], v, ts, addr);
    forall u: nat | u < c.n && Holds(run[i], u, ts, addr)
      ensures u == v
    {
      HeldWhereItLeads(c, run[i], u, ts, addr);
    }
    var u := LastHop(c, run[i], v, ts, addr);
    if !(v == c.root && addr == [1]) {
      assert Gave(c, run[i], u, v, ts, addr);
    }
  }

  // ---- one address per node ----

  /** Rounds at which a node accepted an address, in order and never twice. */
  ghost predicate OncePerRound(w: World, v: nat)
    requires v < |w.log|
  {
    forall i, j :: 0 <= i < j < |w.log[v]| ==> w.log[v][i].ts < w.log[v][j].ts
  }

  ghost predicate AllOnce(c: Config, w: World)
    requires |w.log| == c.n
  {
    forall v :: 0 <= v < c.n ==> OncePerRound(w, v)
  }

  lemma AppendOnce(w: World, w': World, v: nat, a: Accepting)
    requires |w.log| == |w'.log| && v < |w.log| && OncePerRound(w, v) && w'.log[v] == w.log[v] + [a]
    requires forall i :: 0 <= i < |w.log[v]| ==> w.log[v][i].ts < a.ts
    ensures OncePerRound(w', v)
  {
  }

  /** With room for one address a common node accepts only a newer round. */
  lemma OneSlotIsNewer(n: Node, log: seq<Accepting>, addr: Addr, ts: nat)
    requires n.maxHlmac == 1 && |addr| > 0 && Accepted(n, addr, ts)
    requires forall i :: 0 <= i < |n.table| ==> n.table[i].timestamp == n.lastTimestamp
    requires forall i :: 0 <= i < |log| ==> log[i].ts <= n.lastTimestamp && (log[i].ts == n.lastTimestamp ==> n.table != [])
    ensures forall i :: 0 <= i < |log| ==> log[i].ts < ts
  {
    assert n.table != [] && ts == n.lastTimestamp ==> Kept(n.table, ts) == n.table;
  }

  /** A table with an entry at least as recent has no second slot. */
  lemma FullSlot(n: Node, addr: Addr, ts: nat)
    requires n.maxHlmac == 1 && |addr| > 0 && n.table != [] && n.table[0].timestamp >= ts
    ensures !Accepted(n, addr, ts)
  {
  }

  lemma AcceptIsNewer(c: Config, w: World, x: Assignment)
    requires WorldInv(c, w, 1) && x in w.sent && x.dst < c.n && Accepted(w.nodes[x.dst], x.prefix + [x.id], x.ts)
    ensures x.dst != c.root
    ensures forall i :: 0 <= i < |w.log[x.dst]| ==> w.log[x.dst][i].ts < x.ts
  {
    var v, addr := x.dst, x.prefix + [x.id];
    assert WireOk(c, w, x) && Static(c, w, v, 1) && RootInv(c, w);
    if v != c.root {
      assert TableInv(c, w, v);
      OneSlotIsNewer(w.nodes[v], w.log[v], addr, x.ts);
    } else {
      FullSlot(w.nodes[v], addr, x.ts);
    }
  }

  lemma OnceStep(c: Config, w: World, w': World)
    requires WorldInv(c, w, 1) && AllOnce(c, w) && Happens(c, w, w')
    ensures |w'.log| == c.n && AllOnce(c, w')
  {
    forall v | 0 <= v < c.n
      ensures |w'.log| == c.n && OncePerRound(w', v)
    {
      OnceStepAt(c, w, w', v);
    }
  }

  lemma OnceStepAt(c: Config, w: World, w': World, v: nat)
    requires WorldInv(c, w, 1) && v < c.n && OncePerRound(w, v) && Happens(c, w, w')
    ensures |w'.log| == c.n && OncePerRound(w', v)
  {
    var e :| CanHappen(c, w, e) && w' == After(c, w, e);
    assert LogOk(c, w, v);
    if e.Arrive? && v == e.wire.dst && w'.log[v] != w.log[v] {
      AcceptIsNewer(c, w, e.wire);
      AppendOnce(w, w', v, Accepting(e.wire.ts, e.wire.prefix + [e.wire.id], e.wire.src));
    } else if e.RootTimer? && v == c.root && w'.log[v] != w.log[v] {
      AppendOnce(w, w', v, Accepting(w.nodes[v].rootTimestamp + 1, [1], v));
    } else {
      assert w'.log[v] == w.log[v];
    }
  }

  lemma OnceNext(c: Config, run: seq<World>, i: nat)
    requires AllHappen(c, run) && i + 1 < |run| && WorldInv(c, run[i], 1) && AllOnce(c, run[i])
    ensures |run[i + 1].log| == c.n && AllOnce(c, run[i + 1])
  {
    NextHappens(c, run, i);
    OnceStep(c, run[i], run[i + 1]);
  }

  lemma {:induction false} OnceFrom(c: Config, run: seq<World>, i: nat)
    requires AllHappen(c, run) && i < |run| && WorldInv(c, run[0], 1) && AllOnce(c, run[0])
    ensures WorldInv(c, run[i], 1) && AllOnce(c, run[i])
  {
    if i > 0 {
      OnceFrom(c, run, i - 1);
      InvNext(c, run, i - 1, 1);
      OnceNext(c, run, i - 1);
    }
  }

  lemma BootedOnce(c: Config, w: World)
    requires Booted(c, w, 1)
    ensures AllOnce(c, w)
  {
    forall v | 0 <= v < c.n
      ensures OncePerRound(w, v)
    {
      assert w.log[v] == [];
    }
  }

  lemma HistoryOnce(c: Config, run: seq<World>, i: nat)
    requires IsHistory(c, run, 1) && i < |run|
    ensures WorldInv(c, run[i], 1) && AllOnce(c, run[i])
  {
    BootedInv(c, run[0], 1);
    BootedOnce(c, run[0]);
    OnceFrom(c, run, i);
  }

  /** For each timestamp a node accepts at most one address. */
  lemma OneAddressPerRound(c: Config, run: seq<World>, i: nat, v: nat, ts: nat, a: Addr, b: Addr)
    requires IsHistory(c, run, 1) && i < |run| && v < c.n && |run[i].log| == c.n
    requires Holds(run[i], v, ts, a) && Holds(run[i], v, ts, b)
    ensures a == b
  {
    HistoryOnce(c, run, i);
    assert OncePerRound(run[i], v);
  }

  /** The path traced by an accepted address visits no node twice. */
  lemma NoCycle(c: Config, run: seq<World>, i: nat, v: nat, ts: nat, addr: Addr, j: nat, k: nat)
    requires IsHistory(c, run, 1) && i < |run| && v < c.n && |run[i].log| == c.n && Holds(run[i], v, ts, addr)
    requires 1 <= j < k <= |addr|
    ensures NodeAt(c, addr[..j]).Some? && NodeAt(c, addr[..k]).Some?
    ensures NodeAt(c, addr[..j]) != NodeAt(c, addr[..k])
  {
    HistoryInv(c, run, i, 1);
    var x := PrefixHeld(c, run[i], v, ts, addr, j);
    var y := PrefixHeld(c, run[i], v, ts, addr, k);
    HistoryOnce(c, run, i);
    assert OncePerRound(run[i], x);
    assert |addr[..j]| == j && |addr[..k]| == k;
  }

  // ---- all addresses ----

  /** An entry that is a proper prefix is found by the loop check; zero ids do not matter here. */
  lemma PrefixIsLoop(entries: seq<TableEntry>, e: TableEntry, a: Addr)
    requires e in entries && e.address != [] && ProperPrefix(e.address, a)
    ensures HasLoop(entries, a)
  {
    var p := a[..|a| - 1];
    assert e.address == p[..|e.address|];
    assert PadEqual(e.address, p[..|e.address|]);
    var i :| 0 <= i < |entries| && entries[i] == e;
    assert Matches(entries, p[..|e.address|]);
  }

  /** No address a node holds runs through another one it holds in the same round. */
  ghost predicate NoExtension(w: World, v: nat)
    requires v < |w.log|
  {
    forall i, j :: 0 <= i < |w.log[v]| && 0 <= j < |w.log[v]| && w.log[v][i].ts == w.log[v][j].ts ==>
      !ProperPrefix(w.log[v][i].addr, w.log[v][j].addr)
  }

  /** ... stated for two held addresses. */
  lemma HeldApart(w: World, v: nat, ts: nat, a: Addr, b: Addr)
    requires v < |w.log| && NoExtension(w, v) && Holds(w, v, ts, a) && Holds(w, v, ts, b)
    ensures !ProperPrefix(a, b)
  {
    var i :| 0 <= i < |w.log[v]| && w.log[v][i].ts == ts && w.log[v][i].addr == a;
    var j :| 0 <= j < |w.log[v]| && w.log[v][j].ts == ts && w.log[v][j].addr == b;
    assert w.log[v][i].ts == w.log[v][j].ts;
  }

  /** The root accepts an address other than its own [1] at most once per round, in rounds up to last_timestamp. */
  ghost predicate RootOnce(last: nat, log: seq<Accepting>)
  {
    && (forall i :: 0 <= i < |log| && log[i].addr != [1] ==> log[i].ts <= last)
    && forall i, j :: 0 <= i < j < |log| && log[i].addr != [1] && log[j].addr != [1] ==> log[i].ts < log[j].ts
  }

  lemma HeldByRoot(c: Config, w: World, ts: nat, a: Addr, b: Addr)
    requires c.root < |w.nodes| == |w.log| && RootOnce(w.nodes[c.root].lastTimestamp, w.log[c.root])
    requires Holds(w, c.root, ts, a) && Holds(w, c.root, ts, b) && a != [1] && b != [1]
    ensures a == b
  {
    var log := w.log[c.root];
    var i :| 0 <= i < |log| && log[i].ts == ts && log[i].addr == a;
    var j :| 0 <= j < |log| && log[j].ts == ts && log[j].addr == b;
  }

  ghost predicate AllLoopFree(c: Config, w: World)
    requires c.root < c.n == |w.log| == |w.nodes|
  {
    && (forall v :: 0 <= v < c.n && v != c.root ==> NoExtension(w, v))
    && RootOnce(w.nodes[c.root].lastTimestamp, w.log[c.root])
  }

  /** hlmactable_has_loop keeps extensions of the node's own addresses out, even across the bypass at a new timestamp. */
  lemma NewIsNoExtension(c: Config, w: World, x: Assignment, i: nat, maxHlmac: int)
    requires WorldInv(c, w, maxHlmac) && x in w.sent && x.dst < c.n && x.dst != c.root
    requires Accepted(w.nodes[x.dst], x.prefix + [x.id], x.ts)
    requires i < |w.log[x.dst]| && w.log[x.dst][i].ts == x.ts
    ensures !ProperPrefix(w.log[x.dst][i].addr, x.prefix + [x.id])
  {
    var v, n, addr, a := x.dst, w.nodes[x.dst], x.prefix + [x.id], w.log[x.dst][i];
    assert TableInv(c, w, v) && LogOk(c, w, v) && Given(c, w, v, a);
    assert a.ts == n.lastTimestamp;
    assert TableEntry(a.addr, a.ts) in n.table;
    if ProperPrefix(a.addr, addr) {
      PrefixIsLoop(n.table, TableEntry(a.addr, a.ts), addr);
    }
  }

  /** Whoever holds an address that runs through the assigned one has the assigned one too. */
  lemma NotHeldNotExtended(c: Config, w: World, x: Assignment, b: Addr, maxHlmac: int)
    requires WorldInv(c, w, maxHlmac) && x in w.sent && x.dst < c.n
    requires Holds(w, x.dst, x.ts, b) && !Holds(w, x.dst, x.ts, x.prefix + [x.id])
    ensures !ProperPrefix(x.prefix + [x.id], b)
  {
    var addr := x.prefix + [x.id];
    WireLeads(c, w, x, maxHlmac);
    if |addr| <= |b| {
      assert addr < b ==> b[..|addr|] == addr;
      var y := PrefixHeld(c, w, x.dst, x.ts, b, |addr|);
      assert b[..|addr|] != addr;
    }
  }

  /** An older address of the round that runs through the new one would already have broken the rule. */
  lemma OldIsNoExtension(c: Config, w: World, x: Assignment, i: nat, maxHlmac: int)
    requires WorldInv(c, w, maxHlmac) && x in w.sent && x.dst < c.n && NoExtension(w, x.dst)
    requires i < |w.log[x.dst]| && w.log[x.dst][i].ts == x.ts
    ensures !ProperPrefix(x.prefix + [x.id], w.log[x.dst][i].addr)
  {
    var v, addr, a := x.dst, x.prefix + [x.id], w.log[x.dst][i];
    assert Holds(w, v, x.ts, a.addr);
    if Holds(w, v, x.ts, addr) {
      HeldApart(w, v, x.ts, addr, a.addr);
    } else {
      NotHeldNotExtended(c, w, x, a.addr, maxHlmac);
    }
  }

  /** The address a message assigns leads to its receiver. */
  lemma WireLeads(c: Config, w: World, x: Assignment, maxHlmac: int)
    requires WorldInv(c, w, maxHlmac) && x in w.sent
    ensures NodeAt(c, x.prefix + [x.id]) == Some(x.dst)
  {
    assert WireOk(c, w, x);
    HeldNonEmpty(c, w, x.src, x.ts, x.prefix, maxHlmac);
    HeldWhereItLeads(c, w, x.src, x.ts, x.prefix);
    RoundTree.IdFound(c.nbrs[x.src], x.dst);
    assert (x.prefix + [x.id])[..|x.prefix|] == x.prefix;
  }

  lemma LoopFreeStep(c: Config, w: World, w': World, maxHlmac: int)
    requires WorldInv(c, w, maxHlmac) && (maxHlmac == -1 || maxHlmac >= 1) && AllLoopFree(c, w) && Happens(c, w, w')
    ensures |w'.nodes| == |w'.log| == c.n && AllLoopFree(c, w')
  {
    var e :| CanHappen(c, w, e) && w' == After(c, w, e);
    forall v | 0 <= v < c.n && v != c.root
      ensures NoExtension(w', v)
    {
      NodeStaysLoopFree(c, w, w', e, v, maxHlmac);
    }
    RootOnceStep(c, w, w', e, maxHlmac);
  }

  lemma NodeStaysLoopFree(c: Config, w: World, w': World, e: Happening, v: nat, maxHlmac: int)
    requires WorldInv(c, w, maxHlmac) && v < c.n && v != c.root && NoExtension(w, v)
    requires CanHappen(c, w, e) && w' == After(c, w, e)
    ensures |w'.log| == c.n && NoExtension(w', v)
  {
    if e.Arrive? && v == e.wire.dst && w'.log[v] != w.log[v] {
      ArrivalLoopFree(c, w, w', e.wire, maxHlmac);
    } else {
      assert w'.log[v] == w.log[v];
    }
  }

  /** What the root takes is newer than what it took before. */
  lemma ArrivalRootOnce(n: Node, log: seq<Accepting>, x: Assignment, draw: int)
    requires RootOnce(n.lastTimestamp, log)
    requires var addr := x.prefix + [x.id];
             && (Accepted(n, addr, x.ts) ==> x.ts > n.lastTimestamp)
             && OnSetHlmac(n, x.src, addr, x.ts, draw).node.lastTimestamp == if Accepted(n, addr, x.ts) then x.ts else n.lastTimestamp
    ensures RootOnce(OnSetHlmac(n, x.src, x.prefix + [x.id], x.ts, draw).node.lastTimestamp,
                     log + if Accepted(n, x.prefix + [x.id], x.ts) then [Accepting(x.ts, x.prefix + [x.id], x.src)] else [])
  {
  }

  lemma RootOnceStep(c: Config, w: World, w': World, e: Happening, maxHlmac: int)
    requires WorldInv(c, w, maxHlmac) && RootOnce(w.nodes[c.root].lastTimestamp, w.log[c.root])
    requires CanHappen(c, w, e) && w' == After(c, w, e) && (maxHlmac == -1 || maxHlmac >= 1)
    ensures |w'.nodes| == |w'.log| == c.n && RootOnce(w'.nodes[c.root].lastTimestamp, w'.log[c.root])
  {
    var r := c.root;
    assert Static(c, w, r, maxHlmac);
    match e {
      case RootTimer(_) =>
      case Arrive(x, draw) =>
        if x.dst == r {
          RootTakes(c, w, x, maxHlmac);
          SetEffect(w.nodes[r], x.src, x.prefix + [x.id], x.ts, draw, c.nbrs[r]);
          ArrivalRootOnce(w.nodes[r], w.log[r], x, draw);
        }
      case LoadArrives(u, a, value) =>
        if u == r { LoadEffect(w.nodes[r], a, value, c.nbrs[r]); }
      case ShareArrives(u, a, value) =>
        if u == r { ShareEffectHere(w.nodes[r], a, value, c.nbrs[r]); }
    }
  }

  lemma ArrivalLoopFree(c: Config, w: World, w': World, x: Assignment, maxHlmac: int)
    requires WorldInv(c, w, maxHlmac) && x in w.sent && x.dst < c.n && x.dst != c.root && NoExtension(w, x.dst)
    requires Accepted(w.nodes[x.dst], x.prefix + [x.id], x.ts)
    requires |w'.log| == c.n && w'.log[x.dst] == w.log[x.dst] + [Accepting(x.ts, x.prefix + [x.id], x.src)]
    ensures NoExtension(w', x.dst)
  {
    var v := x.dst;
    forall i | 0 <= i < |w.log[v]| && w.log[v][i].ts == x.ts
      ensures !ProperPrefix(w.log[v][i].addr, x.prefix + [x.id]) && !ProperPrefix(x.prefix + [x.id], w.log[v][i].addr)
    {
      NewIsNoExtension(c, w, x, i, maxHlmac);
      OldIsNoExtension(c, w, x, i, maxHlmac);
    }
  }

  lemma BootedLoopFree(c: Config, w: World, maxHlmac: int)
    requires Booted(c, w, maxHlmac)
    ensures AllLoopFree(c, w)
  {
    forall v | 0 <= v < c.n
      ensures NoExtension(w, v)
    {
      assert w.log[v] == [];
    }
  }

  lemma LoopFreeNext(c: Config, run: seq<World>, i: nat, maxHlmac: int)
    requires AllHappen(c, run) && i + 1 < |run| && WorldInv(c, run[i], maxHlmac) && AllLoopFree(c, run[i])
    requires maxHlmac == -1 || maxHlmac >= 1
    ensures |run[i + 1].nodes| == |run[i + 1].log| == c.n && AllLoopFree(c, run[i + 1])
  {
    NextHappens(c, run, i);
    LoopFreeStep(c, run[i], run[i + 1], maxHlmac);
  }

  lemma {:induction false} LoopFreeFrom(c: Config, run: seq<World>, i: nat, maxHlmac: int)
    requires AllHappen(c, run) && (maxHlmac == -1 || maxHlmac >= 1) && i < |run|
    requires WorldInv(c, run[0], maxHlmac) && AllLoopFree(c, run[0])
    ensures WorldInv(c, run[i], maxHlmac) && AllLoopFree(c, run[i])
  {
    if i > 0 {
      LoopFreeFrom(c, run, i - 1, maxHlmac);
      InvNext(c, run, i - 1, maxHlmac);
      LoopFreeNext(c, run, i - 1, maxHlmac);
    }
  }

  lemma HistoryLoopFree(c: Config, run: seq<World>, i: nat, maxHlmac: int)
    requires IsHistory(c, run, maxHlmac) && (maxHlmac == -1 || maxHlmac >= 1) && i < |run|
    ensures WorldInv(c, run[i], maxHlmac) && AllLoopFree(c, run[i])
  {
    BootedInv(c, run[0], maxHlmac);
    BootedLoopFree(c, run[0], maxHlmac);
    LoopFreeFrom(c, run, i, maxHlmac);
  }

  /**
   * Loop freedom with any number of addresses per node: the path of an accepted address visits no
   * node twice, except that it may come back to the root, where it begins, once.
   */
  lemma LoopFreedom(c: Config, run: seq<World>, i: nat, v: nat, ts: nat, addr: Addr, j: nat, k: nat, maxHlmac: int)
    requires IsHistory(c, run, maxHlmac) && (maxHlmac == -1 || maxHlmac >= 1)
    requires i < |run| && v < c.n && |run[i].log| == c.n && Holds(run[i], v, ts, addr)
    requires 1 <= j < k <= |addr|
    ensures NodeAt(c, addr[..j]).Some? && NodeAt(c, addr[..k]).Some?
    ensures NodeAt(c, addr[..j]) == NodeAt(c, addr[..k]) ==> j == 1 && NodeAt(c, addr[..j]).value == c.root
  {
    HistoryLoopFree(c, run, i, maxHlmac);
    var w := run[i];
    var x := PrefixHeld(c, w, v, ts, addr, j);
    var y := PrefixHeld(c, w, v, ts, addr, k);
    assert addr[..j] == addr[..k][..j] && ProperPrefix(addr[..j], addr[..k]);
    if x != c.root && Holds(w, x, ts, addr[..k]) {
      HeldApart(w, x, ts, addr[..j], addr[..k]);
    }
    if x == c.root && Holds(w, x, ts, addr[..k]) && j > 1 {
      HeldByRoot(c, w, ts, addr[..j], addr[..k]);
    }
  }

  /** Every SetHLMAC sent to the root assigns an address that runs through the root itself. */
  lemma ToRootIsLoop(c: Config, w: World, x: Assignment, maxHlmac: int)
    requires WorldInv(c, w, maxHlmac) && x in w.sent && x.dst == c.root
    ensures [1] < x.prefix + [x.id]
    ensures var n := w.nodes[c.root]; n.table != [] && n.table[0].address == [1] && n.table[0].timestamp >= x.ts
  {
    assert WireOk(c, w, x) && RootInv(c, w);
    HeldNonEmpty(c, w, x.src, x.ts, x.prefix, maxHlmac);
    var y := PrefixHeld(c, w, x.src, x.ts, x.prefix, 1);
    assert x.prefix[0] == x.prefix[..1][0] == 1;
  }

  lemma RootTakes(c: Config, w: World, x: Assignment, maxHlmac: int)
    requires WorldInv(c, w, maxHlmac) && (maxHlmac == -1 || maxHlmac >= 1) && x in w.sent && x.dst == c.root
    ensures var n, addr := w.nodes[c.root], x.prefix + [x.id];
            && [1] < addr
            && (Accepted(n, addr, x.ts) <==> x.ts > n.lastTimestamp && HasRoom(n.table, maxHlmac))
            && (maxHlmac == 1 ==> !Accepted(n, addr, x.ts))
  {
    var n, addr := w.nodes[c.root], x.prefix + [x.id];
    ToRootIsLoop(c, w, x, maxHlmac);
    assert Static(c, w, c.root, maxHlmac);
    PrefixIsLoop(n.table, n.table[0], addr);
    assert Kept(n.table, x.ts) == n.table;
  }

  /**
   * The root is not protected: its own timer does not advance last_timestamp. In every history
   * it takes an address that runs through itself exactly when the message is newer than
   * last_timestamp and the table has room, which with one address per node it never has.
   */
  lemma RootTakesLoops(c: Config, run: seq<World>, i: nat, x: Assignment, maxHlmac: int)
    requires IsHistory(c, run, maxHlmac) && (maxHlmac == -1 || maxHlmac >= 1) && i < |run|
    requires c.root < |run[i].nodes| && x in run[i].sent && x.dst == c.root
    ensures var n, addr := run[i].nodes[c.root], x.prefix + [x.id];
            && [1] < addr
            && (Accepted(n, addr, x.ts) <==> x.ts > n.lastTimestamp && HasRoom(n.table, maxHlmac))
            && (maxHlmac == 1 ==> !Accepted(n, addr, x.ts))
  {
    HistoryInv(c, run, i, maxHlmac);
    RootTakes(c, run[i], x, maxHlmac);
  }

  // ---- a history in which the root holds a loop ----

  lemma {:induction false} SetHlmacsHas(nbrs: seq<Nbr>, sender: LinkId, addr: Addr, ts: nat, k: nat)
    requires k < |nbrs| && nbrs[k].addr != sender
    ensures Out(Some(nbrs[k].addr), SetHlmac(ts, addr, nbrs[k].id)) in SetHlmacs(nbrs, sender, addr, ts)
  {
    var l := |nbrs| - 1;
    if k < l {
      SetHlmacsHas(nbrs[..l], sender, addr, ts, k);
    }
  }

  /** A history so far, ending in `w`. */
  ghost predicate Ends(c: Config, run: seq<World>, w: World)
  {
    run != [] && Booted(c, run[0], -1) && AllHappen(c, run) && run[|run| - 1] == w
  }

  lemma OneMoreEvent(c: Config, run: seq<World>, w: World, w': World)
    requires Ends(c, run, w) && Happens(c, w, w')
    ensures Ends(c, run + [w'], w')
  {
    forall l | 0 <= l < |run|
      ensures HappensAt(c, run + [w'], l)
    {
      assert l < |run| - 1 ==> HappensAt(c, run, l);
    }
  }

  /** `w'` differs from `w` only at `v`. */
  ghost predicate OnlyAt(c: Config, w: World, w': World, v: nat)
  {
    && |w.nodes| == |w'.nodes| == c.n
    && forall u :: 0 <= u < c.n && u != v ==> w'.nodes[u] == w.nodes[u]
  }

  /** The root's timer sends [1] to every neighbour. */
  lemma TimerReaches(c: Config, run: seq<World>, w: World, k: nat) returns (w': World, x: Assignment)
    requires WorldInv(c, w, -1) && Ends(c, run, w) && k < |c.nbrs[c.root]|
    ensures WorldInv(c, w', -1) && Ends(c, run + [w'], w') && OnlyAt(c, w, w', c.root) && Now(c, w') == Now(c, w) + 1 >= 0
    ensures w'.nodes[c.root].lastTimestamp == w.nodes[c.root].lastTimestamp && |w'.nodes[c.root].table| == 1
    ensures x in w'.sent && x.src == c.root && x.dst == c.nbrs[c.root][k] && x.ts == Now(c, w') && x.prefix == [1]
  {
    w', x := TimerStepNow(c, w, k);
    OneMoreEvent(c, run, w, w');
  }

  lemma TimerStepNow(c: Config, w: World, k: nat) returns (w': World, x: Assignment)
    requires WorldInv(c, w, -1) && k < |c.nbrs[c.root]|
    ensures WorldInv(c, w', -1) && Happens(c, w, w') && OnlyAt(c, w, w', c.root) && Now(c, w') == Now(c, w) + 1 >= 0
    ensures w'.nodes[c.root].lastTimestamp == w.nodes[c.root].lastTimestamp && |w'.nodes[c.root].table| == 1
    ensures x in w'.sent && x.src == c.root && x.dst == c.nbrs[c.root][k] && x.ts == Now(c, w') && x.prefix == [1]
  {
    var n := w.nodes[c.root];
    assert Static(c, w, c.root, -1) && TableOk(c, c.root) && RootInv(c, w);
    w' := After(c, w, RootTimer(0));
    TimerInv(c, w, 0, -1);
    TimerEffect(n, 0, c.nbrs[c.root]);
    x := Assignment(c.root, n.nbrs[k].addr, n.rootTimestamp + 1, [1], n.nbrs[k].id);
    TimerSends(n, c.root, k);
  }

  lemma TimerSends(n: Node, v: nat, k: nat)
    requires n.rootTimestamp >= -1 && k < |n.nbrs| && n.nbrs[k].addr != n.self
    ensures Assignment(v, n.nbrs[k].addr, n.rootTimestamp + 1, [1], n.nbrs[k].id) in WiresOf(v, OnRootTimer(n, 0).outs)
  {
    var ts := n.rootTimestamp + 1;
    SetHlmacsHas(n.nbrs, n.self, [1], ts, k);
    var o := Out(Some(n.nbrs[k].addr), SetHlmac(ts, [1], n.nbrs[k].id));
    assert o in OnRootTimer(n, 0).outs;
  }

  /** Whoever accepts an address passes it on to every neighbour but its sender. */
  lemma AcceptReaches(c: Config, run: seq<World>, w: World, x: Assignment, k: nat) returns (w': World, y: Assignment)
    requires WorldInv(c, w, -1) && Ends(c, run, w) && x in w.sent && x.dst < c.n
    requires Accepted(w.nodes[x.dst], x.prefix + [x.id], x.ts)
    requires k < |c.nbrs[x.dst]| && c.nbrs[x.dst][k] != x.src
    ensures WorldInv(c, w', -1) && Ends(c, run + [w'], w') && OnlyAt(c, w, w', x.dst)
    ensures y in w'.sent && y.src == x.dst && y.dst == c.nbrs[x.dst][k] && y.ts == x.ts && y.prefix == x.prefix + [x.id]
  {
    var n, addr := w.nodes[x.dst], x.prefix + [x.id];
    assert Static(c, w, x.dst, -1);
    w' := ArriveNow(c, w, x);
    OneMoreEvent(c, run, w, w');
    y := Assignment(x.dst, n.nbrs[k].addr, x.ts, addr, n.nbrs[k].id);
    AcceptSends(n, x.dst, x.src, addr, x.ts, k);
  }

  lemma ArriveNow(c: Config, w: World, x: Assignment) returns (w': World)
    requires WorldInv(c, w, -1) && x in w.sent && x.dst < c.n
    ensures WorldInv(c, w', -1) && Happens(c, w, w') && OnlyAt(c, w, w', x.dst)
    ensures w'.sent == w.sent + WiresOf(x.dst, OnSetHlmac(w.nodes[x.dst], x.src, x.prefix + [x.id], x.ts, 0).outs)
  {
    w' := After(c, w, Arrive(x, 0));
    ArriveInv(c, w, x, 0, -1);
    assert CanHappen(c, w, Arrive(x, 0));
  }

  lemma AcceptSends(n: Node, v: nat, sender: LinkId, addr: Addr, ts: nat, k: nat)
    requires |addr| > 0 && Accepted(n, addr, ts) && k < |n.nbrs| && n.nbrs[k].addr != sender
    ensures Assignment(v, n.nbrs[k].addr, ts, addr, n.nbrs[k].id) in WiresOf(v, OnSetHlmac(n, sender, addr, ts, 0).outs)
  {
    SetHlmacsHas(n.nbrs, sender, addr, ts, k);
    var o := Out(Some(n.nbrs[k].addr), SetHlmac(ts, addr, n.nbrs[k].id));
    assert o in OnSetHlmac(n, sender, addr, ts, 0).outs;
  }

  /** A common node that has heard nothing takes the first address of round 1. */
  lemma FirstIsAccepted(c: Config, w0: World, n: Node, v: nat, addr: Addr)
    requires Booted(c, w0, -1) && v < c.n && n == w0.nodes[v] && addr != []
    ensures Accepted(n, addr, 1)
  {
    assert Static(c, w0, v, -1);
  }

  /** The path root, `u`, `t`, root along edges, by position in the neighbour tables. */
  ghost predicate Triangle(c: Config, i: nat, j: nat, k: nat)
    requires ConfigOk(c)
  {
    && i < |c.nbrs[c.root]| && c.nbrs[c.root][i] < c.n
    && var u := c.nbrs[c.root][i];
    && j < |c.nbrs[u]| && c.nbrs[u][j] < c.n
    && var t := c.nbrs[u][j];
    && u != c.root && t != c.root && t != u && k < |c.nbrs[t]| && c.nbrs[t][k] == c.root
  }

  /** Two rounds opened and the first address of the second on its way to `u`. */
  lemma TwoTimers(c: Config, w0: World, i: nat) returns (run: seq<World>, w2: World, x: Assignment)
    requires Booted(c, w0, -1) && i < |c.nbrs[c.root]|
    ensures run != [] && run[0] == w0 && Ends(c, run, w2) && WorldInv(c, w2, -1) && OnlyAt(c, w0, w2, c.root)
    ensures x in w2.sent && x.src == c.root && x.dst == c.nbrs[c.root][i] && x.ts == 1 && x.prefix == [1]
    ensures w2.nodes[c.root].lastTimestamp == 0 && |w2.nodes[c.root].table| == 1
  {
    BootedInv(c, w0, -1);
    var w1, none := TimerReaches(c, [w0], w0, i);
    w2, x := TimerReaches(c, [w0] + [w1], w1, i);
    run := [w0] + [w1] + [w2];
  }

  /** The address goes round the triangle. */
  lemma RoundTriangle(c: Config, run: seq<World>, w0: World, w2: World, x: Assignment, i: nat, j: nat, k: nat)
    returns (all: seq<World>, w4: World, z: Assignment)
    requires Booted(c, w0, -1) && Ends(c, run, w2) && WorldInv(c, w2, -1) && Triangle(c, i, j, k) && OnlyAt(c, w0, w2, c.root)
    requires x in w2.sent && x.src == c.root && x.dst == c.nbrs[c.root][i] && x.ts == 1
    ensures run <= all && Ends(c, all, w4) && WorldInv(c, w4, -1) && w4.nodes[c.root] == w2.nodes[c.root]
    ensures z in w4.sent && z.dst == c.root && z.ts == 1
  {
    var u := c.nbrs[c.root][i];
    var t := c.nbrs[u][j];
    FirstIsAccepted(c, w0, w2.nodes[u], u, x.prefix + [x.id]);
    var w3, y := AcceptReaches(c, run, w2, x, j);
    FirstIsAccepted(c, w0, w3.nodes[t], t, y.prefix + [y.id]);
    w4, z := AcceptReaches(c, run + [w3], w3, y, k);
    all := run + [w3] + [w4];
  }

  /**
   * In any network in which the root lies on a triangle, without a limit on addresses, the root
   * takes an address in round 1 that runs round the triangle and back to itself.
   */
  lemma RootHoldsLoop(c: Config, w0: World, i: nat, j: nat, k: nat) returns (run: seq<World>, addr: Addr)
    requires Booted(c, w0, -1) && Triangle(c, i, j, k)
    ensures IsHistory(c, run, -1) && run[0] == w0
    ensures RootLoop(c, run[|run| - 1], addr)
  {
    var start, w2, x := TwoTimers(c, w0, i);
    var all, w4, z := RoundTriangle(c, start, w0, w2, x, i, j, k);
    var w := RootAccepts(c, all, w4, z);
    run := all + [w];
    addr := z.prefix + [z.id];
  }

  /** The root holds an address of round 1 that runs through the root. */
  ghost predicate RootLoop(c: Config, w: World, addr: Addr)
  {
    c.root < |w.log| && Holds(w, c.root, 1, addr) && [1] < addr
  }

  /** The smallest such network: three nodes, all neighbours of each other. */
  lemma TriangleLoops() returns (c: Config, run: seq<World>, addr: Addr)
    ensures c.n == 3 && IsHistory(c, run, -1)
    ensures RootLoop(c, run[|run| - 1], addr)
  {
    c := Config(3, 0, [[1, 2], [0, 2], [0, 1]], 0);
    var w0 := World([Fresh3(0, [1, 2]), Fresh3(1, [0, 2]), Fresh3(2, [0, 1])], [[], [], []], {});
    SmallConfig(c);
    SmallBooted(c, w0);
    run, addr := RootHoldsLoop(c, w0, 0, 1, 0);
  }

  function Fresh3(v: nat, g: seq<LinkId>): Node
  {
    Node(v, v == 0, -1, if |g| == 2 then [Nbr(g[0], 1, 0, 0, 0), Nbr(g[1], 2, 0, 0, 0)] else [],
         [], [], 0, 0, 0, 0, false, false, false, 0, false, -1)
  }

  lemma SmallConfig(c: Config)
    requires c == Config(3, 0, [[1, 2], [0, 2], [0, 1]], 0)
    ensures ConfigOk(c)
  {
    forall v | 0 <= v < c.n
      ensures TableOk(c, v)
    {
      assert v == 0 || v == 1 || v == 2;
    }
    forall u, v | 0 <= u < c.n && 0 <= v < c.n
      ensures u in c.nbrs[v] <==> v in c.nbrs[u]
    {
      assert (u == 0 || u == 1 || u == 2) && (v == 0 || v == 1 || v == 2);
    }
  }

  lemma SmallBooted(c: Config, w: World)
    requires c == Config(3, 0, [[1, 2], [0, 2], [0, 1]], 0) && ConfigOk(c)
    requires w == World([Fresh3(0, [1, 2]), Fresh3(1, [0, 2]), Fresh3(2, [0, 1])], [[], [], []], {})
    ensures Booted(c, w, -1)
  {
    forall v | 0 <= v < c.n
      ensures Static(c, w, v, -1)
    {
      assert v == 0 || v == 1 || v == 2;
    }
  }

  lemma RootAccepts(c: Config, run: seq<World>, w: World, z: Assignment) returns (w': World)
    requires WorldInv(c, w, -1) && Ends(c, run, w) && z in w.sent && z.dst == c.root && z.ts == 1
    requires w.nodes[c.root].lastTimestamp == 0 && |w.nodes[c.root].table| == 1
    ensures Ends(c, run + [w'], w') && RootLoop(c, w', z.prefix + [z.id])
  {
    ToRootIsLoop(c, w, z, -1);
    assert Static(c, w, c.root, -1);
    assert CanHappen(c, w, Arrive(z, 0));
    w' := After(c, w, Arrive(z, 0));
    assert w'.log[c.root][|w.log[c.root]|] == Accepting(z.ts, z.prefix + [z.id], z.src);
    OneMoreEvent(c, run, w, w');
  }

  // ---- freshness ----

  /** last_timestamp never decreases. */
  lemma LastNeverDecreases(c: Config, w: World, w': World, v: nat, maxHlmac: int)
    requires WorldInv(c, w, maxHlmac) && Happens(c, w, w') && v < c.n
    ensures |w'.nodes| == c.n && w.nodes[v].lastTimestamp <= w'.nodes[v].lastTimestamp
  {
    var e :| CanHappen(c, w, e) && w' == After(c, w, e);
    assert Static(c, w, v, maxHlmac);
    match e {
      case RootTimer(draw) =>
      case Arrive(x, draw) =>
        if v == x.dst {
          SetEffect(w.nodes[v], x.src, x.prefix + [x.id], x.ts, draw, c.nbrs[v]);
        }
      case LoadArrives(u, a, value) =>
        if u == v { LoadEffect(w.nodes[v], a, value, c.nbrs[v]); }
      case ShareArrives(u, a, value) =>
        if u == v { ShareEffectHere(w.nodes[v], a, value, c.nbrs[v]); }
    }
  }

  lemma LastStep(c: Config, w: World, w': World, maxHlmac: int)
    requires WorldInv(c, w, maxHlmac) && Happens(c, w, w')
    ensures |w.nodes| == |w'.nodes| == c.n
    ensures forall v :: 0 <= v < c.n ==> w.nodes[v].lastTimestamp <= w'.nodes[v].lastTimestamp
  {
    forall v | 0 <= v < c.n
      ensures |w'.nodes| == c.n && w.nodes[v].lastTimestamp <= w'.nodes[v].lastTimestamp
    {
      LastNeverDecreases(c, w, w', v, maxHlmac);
    }
  }

  lemma LastNext(c: Config, run: seq<World>, i: nat, maxHlmac: int)
    requires AllHappen(c, run) && i + 1 < |run| && WorldInv(c, run[i], maxHlmac)
    ensures |run[i].nodes| == |run[i + 1].nodes| == c.n
    ensures forall v :: 0 <= v < c.n ==> run[i].nodes[v].lastTimestamp <= run[i + 1].nodes[v].lastTimestamp
  {
    NextHappens(c, run, i);
    LastStep(c, run[i], run[i + 1], maxHlmac);
  }

  lemma LastAt(c: Config, run: seq<World>, i: nat, maxHlmac: int)
    requires IsHistory(c, run, maxHlmac) && (maxHlmac == -1 || maxHlmac >= 1) && i < |run|
    ensures |run[i].nodes| == c.n
    ensures i > 0 ==> |run[i - 1].nodes| == c.n
                      && forall v :: 0 <= v < c.n ==> run[i - 1].nodes[v].lastTimestamp <= run[i].nodes[v].lastTimestamp
  {
    if i > 0 {
      HistoryInv(c, run, i - 1, maxHlmac);
      LastNext(c, run, i - 1, maxHlmac);
    }
  }

  /** ... over any stretch of a history. */
  lemma {:induction false} LastIsMonotone(c: Config, run: seq<World>, i: nat, j: nat, v: nat, maxHlmac: int)
    requires IsHistory(c, run, maxHlmac) && (maxHlmac == -1 || maxHlmac >= 1) && i <= j < |run| && v < c.n
    ensures |run[i].nodes| == |run[j].nodes| == c.n
    ensures run[i].nodes[v].lastTimestamp <= run[j].nodes[v].lastTimestamp
    decreases j - i
  {
    LastAt(c, run, j, maxHlmac);
    if i < j {
      LastIsMonotone(c, run, i, j - 1, v, maxHlmac);
    }
  }

  /** Table entries of a common node are of its latest round, and whoever gave an address is at least as recent. */
  lemma Freshness(c: Config, w: World, v: nat, i: nat, maxHlmac: int)
    requires WorldInv(c, w, maxHlmac) && v < c.n && v != c.root
    ensures forall k :: 0 <= k < |w.nodes[v].table| ==> w.nodes[v].table[k].timestamp == w.nodes[v].lastTimestamp
    ensures i < |w.log[v]| ==>
              var u := w.log[v][i].from;
              && u < c.n && v in c.nbrs[u]
              && w.log[v][i].ts <= if u == c.root then Now(c, w) else w.nodes[u].lastTimestamp
  {
    assert TableInv(c, w, v);
    if i < |w.log[v]| {
      assert LogOk(c, w, v) && Given(c, w, v, w.log[v][i]);
      var u, a := w.log[v][i].from, w.log[v][i];
      var k :| 0 <= k < |w.log[u]| && w.log[u][k].ts == a.ts && w.log[u][k].addr == a.addr[..|a.addr| - 1];
      assert LogOk(c, w, u);
      if u != c.root {
        assert TableInv(c, w, u);
      }
    }
  }
}
