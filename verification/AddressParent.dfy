/**
 * The parent a node marks with flag 1, over whole histories with one address per node, and how
 * long addresses get.
 */
module AddressParent {
  import opened Types
  import opened HlmacAddr
  import opened HlmacTable
  import opened NodeModel
  import opened RoundLocal
  import opened Round
  import opened AddressTree
  import AddressTheorems
  import RoundInv
  import RoundTree

  // ---- what a handler does to the flags ----

  ghost predicate SameFlags(a: seq<Nbr>, b: seq<Nbr>)
  {
    |a| == |b| && forall i :: 0 <= i < |a| ==> b[i].addr == a[i].addr && b[i].flag == a[i].flag
  }

  lemma ShareSendKeepsFlags(n: Node)
    ensures SameFlags(n.nbrs, SendShareIfDone(n).node.nbrs)
  {
  }

  lemma SendKeepsFlags(n: Node)
    ensures SameFlags(n.nbrs, SendIfDone(n).node.nbrs)
  {
    var b := SendLoadIfDone(n).node;
    assert b.nbrs == n.nbrs;
    ShareSendKeepsFlags(b);
  }

  lemma EdgeKeepsFlags(n: Node)
    ensures SameFlags(n.nbrs, BecomeEdge(n).node.nbrs)
  {
  }

  lemma LoadKeepsFlags(n: Node, a: LinkId, value: int)
    ensures SameFlags(n.nbrs, OnLoad(n, a, value).node.nbrs)
  {
  }

  lemma ShareKeepsFlags(n: Node, a: LinkId, value: int)
    ensures SameFlags(n.nbrs, OnShare(n, a, value).node.nbrs)
  {
    var i := IndexOf(n.nbrs, a);
    if i < |n.nbrs| {
      var r := if n.nbrs[i].flag == 0 && !n.edge && n.hijosShare != 0 then AbsorbShare(n, value) else Res(n, []);
      AbsorbKeepsFlags(n, value);
      FlowKeepsFlags(r.node, i, value);
    }
  }

  lemma AbsorbKeepsFlags(n: Node, value: int)
    ensures SameFlags(n.nbrs, AbsorbShare(n, value).node.nbrs)
  {
    assert AddShare(n, value).nbrs == n.nbrs;
    ShareSendKeepsFlags(AddShare(n, value));
  }

  lemma FlowKeepsFlags(n: Node, i: nat, value: int)
    ensures SameFlags(n.nbrs, StoreFlow(n, i, value).nbrs)
  {
  }

  /** Whether the node takes the address as the first of a new round, which clears all flags. */
  predicate Renews(n: Node, addr: Addr, ts: nat)
    requires |addr| > 0
  {
    Accepted(n, addr, ts) && (n.lastTimestamp < ts || n.lastTimestamp == 0)
  }

  /**
   * The flag of a neighbour after a SetHLMAC from `a`: an offered address makes its giver the parent (1) or
   * marks it as one that offered in vain (-1), and a new round clears the others.
   */
  function FlagAfter(n: Node, x: Nbr, a: LinkId, addr: Addr, ts: nat): int
    requires |addr| > 0
  {
    if Offered(n, addr, ts) && x.addr == a then (if Accepted(n, addr, ts) then 1 else -1)
    else if Renews(n, addr, ts) then 0
    else x.flag
  }

  lemma OfferFlags(n: Node, a: LinkId, addr: Addr, ts: nat, draw: int)
    requires |addr| > 0 && Offered(n, addr, ts)
    ensures var m := CountDown(Offer(n, a, addr, ts, draw));
            && |m.nbrs| == |n.nbrs|
            && forall k :: 0 <= k < |n.nbrs| ==> m.nbrs[k].addr == n.nbrs[k].addr && m.nbrs[k].flag == FlagAfter(n, n.nbrs[k], a, addr, ts)
  {
  }

  lemma SetFlags(n: Node, a: LinkId, addr: Addr, ts: nat, draw: int)
    requires |addr| > 0
    ensures var m := OnSetHlmac(n, a, addr, ts, draw).node;
            && |m.nbrs| == |n.nbrs|
            && forall k :: 0 <= k < |n.nbrs| ==> m.nbrs[k].addr == n.nbrs[k].addr && m.nbrs[k].flag == FlagAfter(n, n.nbrs[k], a, addr, ts)
  {
    if Offered(n, addr, ts) {
      var m := CountDown(Offer(n, a, addr, ts, draw));
      OfferFlags(n, a, addr, ts, draw);
      EdgeKeepsFlags(m);
      SendKeepsFlags(BecomeEdge(m).node);
    } else {
      SendKeepsFlags(CountDown(n));
    }
  }

  // ---- the invariant ----

  /** A neighbour with flag 1 gave the newest address, which is of the node's own round. */
  ghost predicate FlagOk(n: Node, log: seq<Accepting>)
  {
    && (n.lastTimestamp > 0 ==> n.table != [])
    && (log != [] ==> log[|log| - 1].ts == n.lastTimestamp)
    && forall k :: 0 <= k < |n.nbrs| && n.nbrs[k].flag == 1 ==> log != [] && n.nbrs[k].addr == log[|log| - 1].from
  }

  ghost predicate FlagsOk(c: Config, w: World)
    requires |w.nodes| == |w.log| == c.n
  {
    forall v :: 0 <= v < c.n && v != c.root ==> FlagOk(w.nodes[v], w.log[v])
  }

  /** No neighbour is marked yet. */
  ghost predicate Unmarked(c: Config, w: World)
    requires |w.nodes| == c.n
  {
    forall v, k :: 0 <= v < c.n && 0 <= k < |w.nodes[v].nbrs| ==> w.nodes[v].nbrs[k].flag != 1
  }

  /** An arrival at one node, with one address per node and every table entry of the node's round. */
  lemma ArrivalFlags(n: Node, log: seq<Accepting>, a: nat, addr: Addr, ts: nat, draw: int, g: seq<LinkId>)
    requires FlagOk(n, log) && |addr| > 0 && n.maxHlmac == 1 && Listed(n.nbrs, g)
    requires forall i :: 0 <= i < |n.table| ==> n.table[i].timestamp == n.lastTimestamp
    ensures FlagOk(OnSetHlmac(n, a, addr, ts, draw).node, log + if Accepted(n, addr, ts) then [Accepting(ts, addr, a)] else [])
  {
    if Accepted(n, addr, ts) {
      AcceptedFlags(n, log, a, addr, ts, draw, g);
    } else {
      assert log + [] == log;
      RefusedFlags(n, log, a, addr, ts, draw, g);
    }
  }

  lemma AcceptedFlags(n: Node, log: seq<Accepting>, a: nat, addr: Addr, ts: nat, draw: int, g: seq<LinkId>)
    requires FlagOk(n, log) && |addr| > 0 && n.maxHlmac == 1 && Listed(n.nbrs, g) && Accepted(n, addr, ts)
    requires forall i :: 0 <= i < |n.table| ==> n.table[i].timestamp == n.lastTimestamp
    ensures FlagOk(OnSetHlmac(n, a, addr, ts, draw).node, log + [Accepting(ts, addr, a)])
  {
    SetEffect(n, a, addr, ts, draw, g);
    SetFlags(n, a, addr, ts, draw);
    assert n.table != [] && ts == n.lastTimestamp ==> Kept(n.table, ts) == n.table;
    assert n.lastTimestamp < ts || n.lastTimestamp == 0;
  }

  lemma RefusedKeepsFlags(n: Node, a: LinkId, addr: Addr, ts: nat, draw: int)
    requires |addr| > 0 && !Accepted(n, addr, ts)
    ensures var m := OnSetHlmac(n, a, addr, ts, draw).node;
            && |m.nbrs| == |n.nbrs|
            && forall k :: 0 <= k < |n.nbrs| ==> m.nbrs[k].addr == n.nbrs[k].addr && (m.nbrs[k].flag == 1 ==> n.nbrs[k].flag == 1)
  {
    SetFlags(n, a, addr, ts, draw);
  }

  lemma RefusedFlags(n: Node, log: seq<Accepting>, a: nat, addr: Addr, ts: nat, draw: int, g: seq<LinkId>)
    requires FlagOk(n, log) && |addr| > 0 && n.maxHlmac == 1 && Listed(n.nbrs, g) && !Accepted(n, addr, ts)
    ensures FlagOk(OnSetHlmac(n, a, addr, ts, draw).node, log)
  {
    SetEffect(n, a, addr, ts, draw, g);
    RefusedKeepsFlags(n, a, addr, ts, draw);
    assert Offered(n, addr, ts) ==> Added(n.table, addr, ts, 1) == Kept(n.table, ts);
  }

  lemma FlagsStep(c: Config, w: World, w': World)
    requires WorldInv(c, w, 1) && FlagsOk(c, w) && Happens(c, w, w') && |w'.nodes| == |w'.log| == c.n
    ensures FlagsOk(c, w')
  {
    forall v | 0 <= v < c.n && v != c.root
      ensures FlagOk(w'.nodes[v], w'.log[v])
    {
      NodeStepFlags(c, w, w', v);
    }
  }

  lemma NodeStepFlags(c: Config, w: World, w': World, v: nat)
    requires WorldInv(c, w, 1) && Happens(c, w, w') && v < c.n && v != c.root && FlagOk(w.nodes[v], w.log[v])
    ensures |w'.nodes| == |w'.log| == c.n && FlagOk(w'.nodes[v], w'.log[v])
  {
    var e :| CanHappen(c, w, e) && w' == After(c, w, e);
    NodeFlags(c, w, w', e, v);
  }

  lemma NodeFlags(c: Config, w: World, w': World, e: Happening, v: nat)
    requires WorldInv(c, w, 1) && CanHappen(c, w, e) && v < c.n && v != c.root && FlagOk(w.nodes[v], w.log[v])
    requires w' == After(c, w, e)
    ensures |w'.nodes| == |w'.log| == c.n && FlagOk(w'.nodes[v], w'.log[v])
  {
    assert Static(c, w, v, 1) && TableInv(c, w, v);
    match e {
      case RootTimer(_) =>
      case Arrive(x, draw) =>
        if x.dst == v {
          ArrivalFlags(w.nodes[v], w.log[v], x.src, x.prefix + [x.id], x.ts, draw, c.nbrs[v]);
        }
      case LoadArrives(u, a, value) =>
        if u == v {
          LoadEffect(w.nodes[v], a, value, c.nbrs[v]);
          LoadKeepsFlags(w.nodes[v], a, value);
        }
      case ShareArrives(u, a, value) =>
        if u == v {
          ShareEffectHere(w.nodes[v], a, value, c.nbrs[v]);
          ShareKeepsFlags(w.nodes[v], a, value);
        }
    }
  }

  lemma FlagsNext(c: Config, run: seq<World>, i: nat)
    requires AllHappen(c, run) && i + 1 < |run| && WorldInv(c, run[i], 1) && FlagsOk(c, run[i])
    requires |run[i + 1].nodes| == |run[i + 1].log| == c.n
    ensures FlagsOk(c, run[i + 1])
  {
    NextHappens(c, run, i);
    FlagsStep(c, run[i], run[i + 1]);
  }

  lemma {:induction false} FlagsFrom(c: Config, run: seq<World>, i: nat)
    requires AllHappen(c, run) && i < |run| && WorldInv(c, run[0], 1) && FlagsOk(c, run[0])
    ensures WorldInv(c, run[i], 1) && FlagsOk(c, run[i])
  {
    if i > 0 {
      FlagsFrom(c, run, i - 1);
      InvNext(c, run, i - 1, 1);
      FlagsNext(c, run, i - 1);
    }
  }

  lemma HistoryFlags(c: Config, run: seq<World>, i: nat)
    requires IsHistory(c, run, 1) && i < |run| && |run[0].nodes| == c.n && Unmarked(c, run[0])
    ensures WorldInv(c, run[i], 1) && FlagsOk(c, run[i])
  {
    BootedInv(c, run[0], 1);
    FlagsFrom(c, run, i);
  }

  /**
   * In every history with one address per node the neighbour a common node marks with flag 1 is
   * the one that gave it its newest address, in its own round, and is at least as recent.
   */
  lemma MarkedParent(c: Config, run: seq<World>, i: nat, v: nat, k: nat)
    requires IsHistory(c, run, 1) && i < |run| && |run[0].nodes| == c.n && Unmarked(c, run[0])
    requires |run[i].nodes| == |run[i].log| == c.n && v < c.n && v != c.root
    requires k < |run[i].nodes[v].nbrs| && run[i].nodes[v].nbrs[k].flag == 1
    ensures var w, log, u := run[i], run[i].log[v], run[i].nodes[v].nbrs[k].addr;
            && log != [] && u == log[|log| - 1].from && log[|log| - 1].ts == w.nodes[v].lastTimestamp
            && u < c.n && v in c.nbrs[u]
            && w.nodes[v].lastTimestamp <= if u == c.root then Now(c, w) else w.nodes[u].lastTimestamp
  {
    HistoryFlags(c, run, i);
    var w := run[i];
    assert FlagOk(w.nodes[v], w.log[v]);
    AddressTheorems.Freshness(c, w, v, |w.log[v]| - 1, 1);
  }

  // ---- every flag of every history ----

  /** `a` gave `v` an address that was offered to the table and not taken. */
  ghost predicate OffersInVain(c: Config, w: World, w': World, v: nat, a: nat)
  {
    && |w.nodes| == |w.log| == c.n && v < c.n
    && exists x, draw :: VainArrival(c, w, w', v, a, x, draw)
  }

  ghost predicate VainArrival(c: Config, w: World, w': World, v: nat, a: nat, x: Assignment, draw: int)
    requires |w.nodes| == |w.log| == c.n && v < c.n
  {
    && x.dst == v && x.src == a && CanHappen(c, w, Arrive(x, draw)) && w' == After(c, w, Arrive(x, draw))
    && Offered(w.nodes[v], x.prefix + [x.id], x.ts) && !Accepted(w.nodes[v], x.prefix + [x.id], x.ts)
  }

  /** `a` has done so since `v` last took an address. */
  ghost predicate VainSince(c: Config, run: seq<World>, i: nat, v: nat, a: nat)
    requires i < |run|
  {
    i > 0 &&
    (OffersInVain(c, run[i - 1], run[i], v, a)
     || (VainSince(c, run, i - 1, v, a) && v < |run[i].log| && v < |run[i - 1].log| && run[i].log[v] == run[i - 1].log[v]))
  }

  /** The flag of neighbour `a`, given what was taken and whether `a` has offered in vain since. */
  function FlagNow(log: seq<Accepting>, vain: bool, a: nat): int
  {
    if vain then -1 else if log != [] && log[|log| - 1].from == a then 1 else 0
  }

  lemma VainMarks(c: Config, w: World, w': World, v: nat, a: nat, k: nat)
    requires WorldInv(c, w, 1) && v < c.n && OffersInVain(c, w, w', v, a) && k < |c.nbrs[v]| && c.nbrs[v][k] == a
    ensures v < |w'.nodes| && k < |w'.nodes[v].nbrs| && w'.nodes[v].nbrs[k].flag == -1
  {
    var x, draw :| VainArrival(c, w, w', v, a, x, draw);
    assert Static(c, w, v, 1);
    SetFlags(w.nodes[v], a, x.prefix + [x.id], x.ts, draw);
  }

  /** What is taken is the first address of a new round. */
  lemma TakingRenews(c: Config, w: World, v: nat, addr: Addr, ts: nat)
    requires WorldInv(c, w, 1) && v < c.n && v != c.root && |addr| > 0 && Accepted(w.nodes[v], addr, ts)
    requires w.nodes[v].lastTimestamp > 0 ==> w.nodes[v].table != []
    ensures Renews(w.nodes[v], addr, ts)
  {
    var n := w.nodes[v];
    assert Static(c, w, v, 1) && TableInv(c, w, v);
    assert n.table != [] && ts == n.lastTimestamp ==> Kept(n.table, ts) == n.table;
  }

  /** One event, unless it is an offer in vain by the neighbour itself. */
  lemma FlagStep(c: Config, w: World, w': World, e: Happening, v: nat, k: nat)
    requires WorldInv(c, w, 1) && CanHappen(c, w, e) && w' == After(c, w, e) && v < c.n && v != c.root && k < |c.nbrs[v]|
    requires FlagOk(w.nodes[v], w.log[v])
    ensures |w'.nodes| == |w'.log| == c.n && k < |w.nodes[v].nbrs| && k < |w'.nodes[v].nbrs|
    ensures w'.log[v] == w.log[v] ==> OffersInVain(c, w, w', v, c.nbrs[v][k]) || w'.nodes[v].nbrs[k].flag == w.nodes[v].nbrs[k].flag
    ensures w'.log[v] != w.log[v] ==> w'.nodes[v].nbrs[k].flag == FlagNow(w'.log[v], false, c.nbrs[v][k])
  {
    assert Static(c, w, v, 1);
    match e {
      case RootTimer(_) =>
      case Arrive(x, draw) =>
        if x.dst == v {
          ArrivalFlag(c, w, w', x, draw, v, k);
        }
      case LoadArrives(u, a, value) =>
        if u == v { LoadKeepsFlags(w.nodes[v], a, value); }
      case ShareArrives(u, a, value) =>
        if u == v { ShareKeepsFlags(w.nodes[v], a, value); }
    }
  }

  lemma ArrivalFlag(c: Config, w: World, w': World, x: Assignment, draw: int, v: nat, k: nat)
    requires WorldInv(c, w, 1) && CanHappen(c, w, Arrive(x, draw)) && w' == After(c, w, Arrive(x, draw)) && x.dst == v
    requires v < c.n && v != c.root && k < |c.nbrs[v]| && FlagOk(w.nodes[v], w.log[v])
    ensures |w'.nodes| == |w'.log| == c.n && k < |w.nodes[v].nbrs| && k < |w'.nodes[v].nbrs|
    ensures w'.log[v] == w.log[v] ==> OffersInVain(c, w, w', v, c.nbrs[v][k]) || w'.nodes[v].nbrs[k].flag == w.nodes[v].nbrs[k].flag
    ensures w'.log[v] != w.log[v] ==> w'.nodes[v].nbrs[k].flag == FlagNow(w'.log[v], false, c.nbrs[v][k])
  {
    var addr := x.prefix + [x.id];
    assert Static(c, w, v, 1);
    SetFlags(w.nodes[v], x.src, addr, x.ts, draw);
    if Accepted(w.nodes[v], addr, x.ts) {
      TakingRenews(c, w, v, addr, x.ts);
    } else if Offered(w.nodes[v], addr, x.ts) && x.src == c.nbrs[v][k] {
      assert VainArrival(c, w, w', v, x.src, x, draw);
    }
  }

  ghost predicate Unflagged(c: Config, w: World)
    requires |w.nodes| == c.n
  {
    forall v, k :: 0 <= v < c.n && 0 <= k < |w.nodes[v].nbrs| ==> w.nodes[v].nbrs[k].flag == 0
  }

  lemma EventFlag(c: Config, w: World, w': World, v: nat, k: nat, vain: bool)
    requires WorldInv(c, w, 1) && FlagsOk(c, w) && Happens(c, w, w') && v < c.n && v != c.root && k < |c.nbrs[v]|
    requires k < |w.nodes[v].nbrs| && w.nodes[v].nbrs[k].flag == FlagNow(w.log[v], vain, c.nbrs[v][k])
    ensures |w'.nodes| == |w'.log| == c.n && k < |w'.nodes[v].nbrs|
    ensures var again := OffersInVain(c, w, w', v, c.nbrs[v][k]) || (vain && w'.log[v] == w.log[v]);
            w'.nodes[v].nbrs[k].flag == FlagNow(w'.log[v], again, c.nbrs[v][k])
  {
    var e :| CanHappen(c, w, e) && w' == After(c, w, e);
    assert FlagOk(w.nodes[v], w.log[v]);
    FlagStep(c, w, w', e, v, k);
    if OffersInVain(c, w, w', v, c.nbrs[v][k]) {
      VainMarks(c, w, w', v, c.nbrs[v][k], k);
    }
  }

  lemma NextFlag(c: Config, run: seq<World>, i: nat, v: nat, k: nat)
    requires AllHappen(c, run) && 0 < i < |run| && WorldInv(c, run[i - 1], 1) && FlagsOk(c, run[i - 1])
    requires v < c.n && v != c.root && k < |c.nbrs[v]| && k < |run[i - 1].nodes[v].nbrs|
    requires run[i - 1].nodes[v].nbrs[k].flag == FlagNow(run[i - 1].log[v], VainSince(c, run, i - 1, v, c.nbrs[v][k]), c.nbrs[v][k])
    ensures |run[i].nodes| == |run[i].log| == c.n && k < |run[i].nodes[v].nbrs|
    ensures run[i].nodes[v].nbrs[k].flag == FlagNow(run[i].log[v], VainSince(c, run, i, v, c.nbrs[v][k]), c.nbrs[v][k])
  {
    NextHappens(c, run, i - 1);
    EventFlag(c, run[i - 1], run[i], v, k, VainSince(c, run, i - 1, v, c.nbrs[v][k]));
  }

  /**
   * The flag of every neighbour of a common node in every history with one address per node: -1 if it
   * offered an address in vain since the node last took one, else 1 if it gave that one, else 0.
   */
  lemma {:induction false} FlagOfEveryHistory(c: Config, run: seq<World>, i: nat, v: nat, k: nat)
    requires IsHistory(c, run, 1) && i < |run| && |run[0].nodes| == c.n && Unflagged(c, run[0])
    requires v < c.n == |c.nbrs| && v != c.root && k < |c.nbrs[v]|
    ensures |run[i].nodes| == |run[i].log| == c.n && k < |run[i].nodes[v].nbrs|
    ensures run[i].nodes[v].nbrs[k].flag == FlagNow(run[i].log[v], VainSince(c, run, i, v, c.nbrs[v][k]), c.nbrs[v][k])
  {
    HistoryFlags(c, run, i);
    if i > 0 {
      FlagOfEveryHistory(c, run, i - 1, v, k);
      HistoryFlags(c, run, i - 1);
      NextFlag(c, run, i, v, k);
    } else {
      assert Static(c, run[0], v, 1);
    }
  }

  /** Without a zero at its end an address compares equal to no proper prefix of itself. */
  lemma PrefixDiffers(addr: Addr, k: nat)
    requires k < |addr| && addr[|addr| - 1] != 0
    ensures !PadEqual(addr, addr[..k])
  {
    assert At(addr, |addr| - 1) != At(addr[..k], |addr| - 1);
  }

  /** An address does not run through itself. */
  lemma NoLoopThroughItself(entries: seq<TableEntry>, addr: Addr)
    requires |addr| > 0 && addr[|addr| - 1] != 0 && forall i :: 0 <= i < |entries| ==> entries[i].address == addr
    ensures !HasLoop(entries, addr)
  {
    var p := LongestMatch(entries, addr[..|addr| - 1]);
    PrefixDiffers(addr, |p|);
    assert p == addr[..|p|];
  }

  /**
   * A SetHLMAC delivered twice costs a node its parent: the second one is offered in vain, its sender gets
   * flag -1, and no neighbour has flag 1 any more, so a Load is not sent and a Share reaches nobody.
   */
  lemma DuplicateLosesParent(c: Config, w: World, x: Assignment, draw: int)
    requires WorldInv(c, w, 1) && FlagsOk(c, w) && x in w.sent && x.dst < c.n && x.dst != c.root
    requires var n, log := w.nodes[x.dst], w.log[x.dst];
             && n.table == [TableEntry(x.prefix + [x.id], x.ts)] && n.lastTimestamp == x.ts
             && log != [] && log[|log| - 1].from == x.src
    ensures CanHappen(c, w, Arrive(x, draw))
    ensures Parent(After(c, w, Arrive(x, draw)).nodes[x.dst].nbrs) == None
  {
    var v, addr, n := x.dst, x.prefix + [x.id], w.nodes[x.dst];
    var w' := After(c, w, Arrive(x, draw));
    assert WireOk(c, w, x) && Static(c, w, v, 1) && FlagOk(n, w.log[v]);
    NoLoopThroughItself(n.table, addr);
    assert Kept(n.table, x.ts) == n.table;
    SetFlags(n, x.src, addr, x.ts, draw);
    forall k | 0 <= k < |n.nbrs|
      ensures w'.nodes[v].nbrs[k].flag != 1
    {
    }
  }

  /** The node after it took the address. */
  lemma AfterTaking(c: Config, w: World, x: Assignment, draw: int)
    requires WorldInv(c, w, 1) && FlagsOk(c, w) && x in w.sent && x.dst < c.n && x.dst != c.root
    requires Accepted(w.nodes[x.dst], x.prefix + [x.id], x.ts)
    ensures var w1, v := After(c, w, Arrive(x, draw)), x.dst;
            && |w1.nodes| == |w1.log| == c.n && w1.nodes[v].table == [TableEntry(x.prefix + [x.id], x.ts)] && w1.nodes[v].lastTimestamp == x.ts
            && w1.log[v] != [] && w1.log[v][|w1.log[v]| - 1].from == x.src
  {
    var v := x.dst;
    assert Static(c, w, v, 1) && TableInv(c, w, v) && FlagOk(w.nodes[v], w.log[v]);
    TakenAlone(w.nodes[v], x.src, x.prefix + [x.id], x.ts, draw, c.nbrs[v]);
  }

  lemma TakingKeeps(c: Config, w: World, x: Assignment, draw: int)
    requires WorldInv(c, w, 1) && FlagsOk(c, w) && x in w.sent && x.dst < c.n
    ensures var w1 := After(c, w, Arrive(x, draw)); WorldInv(c, w1, 1) && FlagsOk(c, w1) && x in w1.sent
  {
    var w1 := After(c, w, Arrive(x, draw));
    assert Happens(c, w, w1);
    HappensInv(c, w, w1, 1);
    FlagsStep(c, w, w1);
  }

  /** ... and so it goes with any SetHLMAC that was accepted, when it comes in again. */
  lemma TwiceLosesParent(c: Config, w: World, x: Assignment, draw: int, again: int)
    requires WorldInv(c, w, 1) && FlagsOk(c, w) && x in w.sent && x.dst < c.n && x.dst != c.root
    requires Accepted(w.nodes[x.dst], x.prefix + [x.id], x.ts)
    ensures var w1 := After(c, w, Arrive(x, draw));
            && |w1.nodes| == |w1.log| == c.n && CanHappen(c, w1, Arrive(x, again))
            && Parent(After(c, w1, Arrive(x, again)).nodes[x.dst].nbrs) == None
  {
    TakingKeeps(c, w, x, draw);
    AfterTaking(c, w, x, draw);
    DuplicateLosesParent(c, After(c, w, Arrive(x, draw)), x, again);
  }

  /** With one slot what is taken is the one entry. */
  lemma TakenAlone(n: Node, a: LinkId, addr: Addr, ts: nat, draw: int, g: seq<LinkId>)
    requires |addr| > 0 && n.maxHlmac == 1 && Listed(n.nbrs, g) && Accepted(n, addr, ts)
    requires n.lastTimestamp > 0 ==> n.table != []
    requires forall i :: 0 <= i < |n.table| ==> n.table[i].timestamp == n.lastTimestamp
    ensures var m := OnSetHlmac(n, a, addr, ts, draw).node; m.table == [TableEntry(addr, ts)] && m.lastTimestamp == ts
  {
    SetEffect(n, a, addr, ts, draw, g);
    assert n.table != [] && ts == n.lastTimestamp ==> Kept(n.table, ts) == n.table;
  }

  /** A Load or Share from this neighbour counts: it has no flag, the node is no leaf and still awaits one. */
  predicate Counts(n: Node, x: Nbr, awaited: Byte)
  {
    x.flag == 0 && !n.edge && awaited != 0
  }

  lemma LoadEffectOnBooks(n: Node, k: nat, value: int)
    requires Distinct(n.nbrs) && k < |n.nbrs|
    ensures var m := OnLoad(n, n.nbrs[k].addr, value).node;
            && m.hijosLoad == (if Counts(n, n.nbrs[k], n.hijosLoad) then n.hijosLoad - 1 else n.hijosLoad)
            && m.hijosShare == n.hijosShare && HeadLoad(m) == HeadLoad(n)
  {
    IndexIs(n.nbrs, k);
  }

  lemma ShareEffectOnBooks(n: Node, k: nat, value: int)
    requires Distinct(n.nbrs) && k < |n.nbrs| && n.nodeList != []
    ensures var m := OnShare(n, n.nbrs[k].addr, value).node;
            && m.hijosShare == (if Counts(n, n.nbrs[k], n.hijosShare) then n.hijosShare - 1 else n.hijosShare)
            && m.hijosLoad == n.hijosLoad
            && HeadLoad(m) == (if !Counts(n, n.nbrs[k], n.hijosShare) then HeadLoad(n)
                               else if !n.isRoot && n.hijosShare == 1 && !n.sentShare then 100 else HeadLoad(n) + value)
            && (!Counts(n, n.nbrs[k], n.hijosShare) ==> OnShare(n, n.nbrs[k].addr, value).outs == [])
  {
    IndexIs(n.nbrs, k);
    if Counts(n, n.nbrs[k], n.hijosShare) {
      AbsorbedLoad(n, value);
    }
  }

  lemma AbsorbedLoad(n: Node, value: int)
    requires n.nodeList != [] && n.hijosShare != 0 && !n.edge
    ensures var m := AbsorbShare(n, value).node;
            && m.hijosShare == n.hijosShare - 1 && m.hijosLoad == n.hijosLoad
            && HeadLoad(m) == if !n.isRoot && n.hijosShare == 1 && !n.sentShare then 100 else HeadLoad(n) + value
  {
    assert HeadLoad(AddShare(n, value)) == HeadLoad(n) + value;
  }

  /**
   * In every state of every history a Load or Share from a neighbour is counted down if and only if it
   * counts, and else it leaves counters and load alone: so with flag 1 or -1, at a leaf, or when none is
   * awaited. It is recorded at its entry all the same.
   */
  lemma LateReportsAreIgnored(c: Config, run: seq<World>, i: nat, v: nat, k: nat, value: int, maxHlmac: int)
    requires IsHistory(c, run, maxHlmac) && (maxHlmac == -1 || maxHlmac >= 1) && i < |run|
    requires |run[i].nodes| == |run[i].log| == c.n && v < c.n && k < |run[i].nodes[v].nbrs| && run[i].nodes[v].nodeList != []
    ensures var n, a := run[i].nodes[v], run[i].nodes[v].nbrs[k].addr;
            && CanHappen(c, run[i], LoadArrives(v, a, value)) && CanHappen(c, run[i], ShareArrives(v, a, value))
            && var l, s := After(c, run[i], LoadArrives(v, a, value)).nodes[v], After(c, run[i], ShareArrives(v, a, value)).nodes[v];
            && l.hijosLoad == (if Counts(n, n.nbrs[k], n.hijosLoad) then n.hijosLoad - 1 else n.hijosLoad)
            && l.hijosShare == n.hijosShare && HeadLoad(l) == HeadLoad(n)
            && s.hijosShare == (if Counts(n, n.nbrs[k], n.hijosShare) then n.hijosShare - 1 else n.hijosShare)
            && s.hijosLoad == n.hijosLoad
            && (HeadLoad(s) == if !Counts(n, n.nbrs[k], n.hijosShare) then HeadLoad(n)
                               else if !n.isRoot && n.hijosShare == 1 && !n.sentShare then 100 else HeadLoad(n) + value)
            && |l.nbrs| == |s.nbrs| == |n.nbrs| && l.nbrs[k].load == value
            && s.nbrs[k].inOut == if value != 0 && n.nbrs[k].inOut == 0 then value else n.nbrs[k].inOut
  {
    HistoryInv(c, run, i, maxHlmac);
    var n := run[i].nodes[v];
    assert Static(c, run[i], v, maxHlmac) && TableOk(c, v);
    assert Distinct(n.nbrs);
    LoadEffectOnBooks(n, k, value);
    ShareEffectOnBooks(n, k, value);
    LoadIsRecorded(n, k, value);
    ShareIsRecorded(n, k, value);
  }

  /**
   * In every history nothing due is left unsent: after a SetHLMAC neither Load nor Share, after a Load from a
   * neighbour no Load, after an awaited Share no Share; and the root has declared what it can.
   */
  lemma NothingDueIsLeft(c: Config, run: seq<World>, i: nat, e: Happening, maxHlmac: int)
    requires IsHistory(c, run, maxHlmac) && (maxHlmac == -1 || maxHlmac >= 1) && i < |run|
    requires |run[i].nodes| == |run[i].log| == c.n && CanHappen(c, run[i], e)
    ensures e.Arrive? ==> LoadSettled(After(c, run[i], e).nodes[e.wire.dst]) && ShareSettled(After(c, run[i], e).nodes[e.wire.dst])
    ensures e.LoadArrives? && e.u in c.nbrs[e.v] ==> LoadSettled(After(c, run[i], e).nodes[e.v])
    ensures e.ShareArrives? && Awaits(run[i].nodes[e.v], e.u) ==> ShareSettled(After(c, run[i], e).nodes[e.v])
  {
    HistoryInv(c, run, i, maxHlmac);
    match e {
      case RootTimer(_) =>
      case Arrive(x, draw) => SetSettles(run[i].nodes[x.dst], x.src, x.prefix + [x.id], x.ts, draw);
      case LoadArrives(v, u, value) =>
        assert Static(c, run[i], v, maxHlmac) && TableOk(c, v);
        if u in c.nbrs[v] {
          var k :| 0 <= k < |c.nbrs[v]| && c.nbrs[v][k] == u;
          LoadIsRecorded(run[i].nodes[v], k, value);
        }
      case ShareArrives(v, u, value) =>
        assert Static(c, run[i], v, maxHlmac) && TableOk(c, v);
        if Awaits(run[i].nodes[v], u) {
          var k := IndexOf(run[i].nodes[v].nbrs, u);
          ShareIsRecorded(run[i].nodes[v], k, value);
        }
    }
  }

  /** The node still counts on a Share of `u`. */
  predicate Awaits(n: Node, u: LinkId)
  {
    var k := IndexOf(n.nbrs, u);
    k < |n.nbrs| && n.nbrs[k].flag == 0 && !n.edge && n.hijosShare != 0
  }

  lemma SendKeepsEntries(n: Node)
    ensures var m := SendIfDone(n).node;
            m.hijosLoad == n.hijosLoad && m.hijosShare == n.hijosShare && |m.nodeList| == |n.nodeList|
            && forall i :: 0 < i < |n.nodeList| ==> m.nodeList[i] == n.nodeList[i]
  {
  }

  lemma EdgeKeepsEntries(n: Node)
    ensures var m := BecomeEdge(n).node;
            m.hijosLoad == n.hijosLoad && m.hijosShare == n.hijosShare && |m.nodeList| == |n.nodeList|
            && forall i :: 0 < i < |n.nodeList| ==> m.nodeList[i] == n.nodeList[i]
  {
  }

  /**
   * With room for more addresses a further one of the same round does not start the round again: it is counted down
   * like any other SetHLMAC, its load is listed behind the first entry, its giver gets flag 1 and no other flag changes.
   */
  lemma FurtherAddress(n: Node, a: LinkId, addr: Addr, ts: nat, draw: int)
    requires |addr| > 0 && Accepted(n, addr, ts) && ts == n.lastTimestamp > 0 && n.nodeList != []
    ensures var m := OnSetHlmac(n, a, addr, ts, draw).node;
            && m.hijosLoad == (if n.hijosLoad > 0 then n.hijosLoad - 1 else 0)
            && m.hijosShare == (if n.hijosShare > 0 then n.hijosShare - 1 else 0)
            && |m.nodeList| == |n.nodeList| + 1 && m.nodeList[|n.nodeList|] == ThisNode(addr, draw)
            && |m.nbrs| == |n.nbrs|
            && forall k :: 0 <= k < |n.nbrs| ==> m.nbrs[k].flag == if n.nbrs[k].addr == a then 1 else n.nbrs[k].flag
  {
    var m := CountDown(Offer(n, a, addr, ts, draw));
    SetFlags(n, a, addr, ts, draw);
    assert m.nodeList == n.nodeList + [ThisNode(addr, draw)];
    EdgeKeepsEntries(m);
    SendKeepsEntries(BecomeEdge(m).node);
  }

  // ---- length ----

  /** The nodes an address passes from position `from` + 1 to `l`. */
  ghost function Passed(c: Config, addr: Addr, from: nat, l: nat): set<nat>
    requires from <= l <= |addr| && |c.nbrs| == c.n
    requires forall m :: 1 <= m <= l ==> AddressTheorems.NodeAt(c, addr[..m]).Some?
  {
    if l == from then {} else Passed(c, addr, from, l - 1) + {AddressTheorems.NodeAt(c, addr[..l]).value}
  }

  /** Every prefix leads to a node, and those longer than `from` to different ones. */
  ghost predicate Acyclic(c: Config, addr: Addr, from: nat)
    requires |c.nbrs| == c.n
  {
    && (forall m :: 1 <= m <= |addr| ==> AddressTheorems.NodeAt(c, addr[..m]).Some? && AddressTheorems.NodeAt(c, addr[..m]).value < c.n)
    && forall j, k :: from < j < k <= |addr| ==> AddressTheorems.NodeAt(c, addr[..j]) != AddressTheorems.NodeAt(c, addr[..k])
  }

  lemma {:induction false} PassedBy(c: Config, addr: Addr, from: nat, l: nat, x: nat) returns (m: nat)
    requires from <= l <= |addr| && |c.nbrs| == c.n && Acyclic(c, addr, from) && x in Passed(c, addr, from, l)
    ensures from < m <= l && AddressTheorems.NodeAt(c, addr[..m]) == Some(x) && x < c.n
  {
    if x == AddressTheorems.NodeAt(c, addr[..l]).value {
      m := l;
    } else {
      m := PassedBy(c, addr, from, l - 1, x);
    }
  }

  lemma NotPassed(c: Config, addr: Addr, from: nat, l: nat)
    requires from < l <= |addr| && |c.nbrs| == c.n && Acyclic(c, addr, from)
    ensures AddressTheorems.NodeAt(c, addr[..l]).value !in Passed(c, addr, from, l - 1)
  {
    var x := AddressTheorems.NodeAt(c, addr[..l]).value;
    if x in Passed(c, addr, from, l - 1) {
      var m := PassedBy(c, addr, from, l - 1, x);
    }
  }

  lemma {:induction false} PassedCard(c: Config, addr: Addr, from: nat, l: nat)
    requires from <= l <= |addr| && |c.nbrs| == c.n && Acyclic(c, addr, from)
    ensures |Passed(c, addr, from, l)| == l - from && Passed(c, addr, from, l) <= RoundTree.Range(c.n)
  {
    if l > from {
      var x, before := AddressTheorems.NodeAt(c, addr[..l]).value, Passed(c, addr, from, l - 1);
      PassedCard(c, addr, from, l - 1);
      NotPassed(c, addr, from, l);
      RoundInv.AddOne(before, Passed(c, addr, from, l), x);
    }
  }

  lemma LengthBound(c: Config, addr: Addr, from: nat)
    requires from <= |addr| && |c.nbrs| == c.n && Acyclic(c, addr, from)
    ensures |addr| <= c.n + from
  {
    PassedCard(c, addr, from, |addr|);
    RoundInv.SubsetCard(Passed(c, addr, from, |addr|), RoundTree.Range(c.n));
  }

  /**
   * No address of any history has more than one id more than the network has nodes, and with one
   * address per node none has more ids than nodes.
   */
  lemma AddressLength(c: Config, run: seq<World>, i: nat, v: nat, ts: nat, addr: Addr, maxHlmac: int)
    requires IsHistory(c, run, maxHlmac) && (maxHlmac == -1 || maxHlmac >= 1)
    requires i < |run| && v < c.n && |run[i].log| == c.n && Holds(run[i], v, ts, addr)
    ensures 1 <= |addr| <= c.n + if maxHlmac == 1 then 0 else 1
  {
    HistoryInv(c, run, i, maxHlmac);
    var u := AddressTheorems.LastHop(c, run[i], v, ts, addr);
    forall m | 1 <= m <= |addr|
      ensures AddressTheorems.NodeAt(c, addr[..m]).Some? && AddressTheorems.NodeAt(c, addr[..m]).value < c.n
    {
      var x := AddressTheorems.PrefixHeld(c, run[i], v, ts, addr, m);
    }
    var from := if maxHlmac == 1 then 0 else 1;
    forall j, k | from < j < k <= |addr|
      ensures AddressTheorems.NodeAt(c, addr[..j]) != AddressTheorems.NodeAt(c, addr[..k])
    {
      AddressTheorems.LoopFreedom(c, run, i, v, ts, addr, j, k, maxHlmac);
      if maxHlmac == 1 {
        AddressTheorems.NoCycle(c, run, i, v, ts, addr, j, k);
      }
    }
    LengthBound(c, addr, from);
  }
}
