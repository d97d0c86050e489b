/**
 * The address tree over all rounds. Here nothing is assumed about delivery: messages may be
 * lost, duplicated, reordered and delayed across any number of overlapping rounds, and Loads
 * and Shares may arrive at any time with any value. Both table configurations are covered:
 * one address per node (maxHlmac == 1) and all addresses (maxHlmac == -1).
 */
module AddressTree {
  import opened Types
  import opened HlmacTable
  import opened NodeModel
  import opened RoundLocal
  import opened Round

  /** An address taken by a node, in the round `ts`, from the neighbour `from`. */
  datatype Accepting = Accepting(ts: nat, addr: Addr, from: nat)

  /** A SetHLMAC that was sent at some time. */
  datatype Assignment = Assignment(src: nat, dst: nat, ts: nat, prefix: Addr, id: Byte)

  /** Nodes, what each has accepted so far, and every SetHLMAC ever sent. */
  datatype World = World(nodes: seq<Node>, log: seq<seq<Accepting>>, sent: set<Assignment>)

  datatype Happening =
    | RootTimer(draw: int)
    | Arrive(wire: Assignment, draw: int)
    | LoadArrives(v: nat, u: nat, value: int)
    | ShareArrives(v: nat, u: nat, value: int)

  predicate CanHappen(c: Config, w: World, e: Happening)
    requires |w.nodes| == |w.log| == c.n
  {
    match e
    case RootTimer(_) => c.root < c.n && w.nodes[c.root].rootTimestamp >= -1
    case Arrive(wire, _) => wire in w.sent && wire.dst < c.n
    case LoadArrives(v, _, _) => v < c.n
    case ShareArrives(v, _, _) => v < c.n
  }

  /** The SetHLMACs among the queued messages. */
  function WiresOf(v: nat, outs: seq<Out>): set<Assignment>
  {
    set o | o in outs && o.msg.SetHlmac? && o.dest.Some? :: Assignment(v, o.dest.value, o.msg.timestamp, o.msg.prefix, o.msg.id)
  }

  function After(c: Config, w: World, e: Happening): World
    requires |w.nodes| == |w.log| == c.n && CanHappen(c, w, e)
  {
    match e
    case RootTimer(draw) =>
      var n := w.nodes[c.root];
      var r := OnRootTimer(n, draw);
      var ts := n.rootTimestamp + 1;
      World(w.nodes[c.root := r.node],
            w.log[c.root := w.log[c.root] + if HasRoom(Kept(n.table, ts), n.maxHlmac) then [Accepting(ts, [1], c.root)] else []],
            w.sent + WiresOf(c.root, r.outs))
    case Arrive(wire, draw) =>
      var n, addr, v := w.nodes[wire.dst], wire.prefix + [wire.id], wire.dst;
      var r := OnSetHlmac(n, wire.src, addr, wire.ts, draw);
      World(w.nodes[v := r.node],
            w.log[v := w.log[v] + if Accepted(n, addr, wire.ts) then [Accepting(wire.ts, addr, wire.src)] else []],
            w.sent + WiresOf(v, r.outs))
    case LoadArrives(v, u, value) => w.(nodes := w.nodes[v := OnLoad(w.nodes[v], u, value).node])
    case ShareArrives(v, u, value) => w.(nodes := w.nodes[v := OnShare(w.nodes[v], u, value).node])
  }

  /** Empty tables, nothing sent. */
  ghost predicate Booted(c: Config, w: World, maxHlmac: int)
  {
    && ConfigOk(c) && |w.nodes| == |w.log| == c.n && w.sent == {}
    && forall v :: 0 <= v < c.n ==>
         && w.log[v] == []
         && Static(c, w, v, maxHlmac)
         && w.nodes[v].table == [] && w.nodes[v].lastTimestamp == 0 && w.nodes[v].rootTimestamp == -1
  }

  ghost predicate Static(c: Config, w: World, v: nat, maxHlmac: int)
    requires v < |w.nodes| == |c.nbrs|
  {
    && (w.nodes[v].isRoot <==> v == c.root) && w.nodes[v].self == v
    && w.nodes[v].maxHlmac == maxHlmac && Listed(w.nodes[v].nbrs, c.nbrs[v])
  }

  ghost predicate IsHistory(c: Config, run: seq<World>, maxHlmac: int)
  {
    && run != [] && Booted(c, run[0], maxHlmac)
    && AllHappen(c, run)
  }

  ghost predicate AllHappen(c: Config, run: seq<World>)
  {
    forall i :: 0 <= i < |run| - 1 ==> HappensAt(c, run, i)
  }

  ghost predicate HappensAt(c: Config, run: seq<World>, i: nat)
    requires i < |run| - 1
  {
    Happens(c, run[i], run[i + 1])
  }

  ghost predicate Happens(c: Config, w: World, w': World)
  {
    |w.nodes| == |w.log| == c.n && exists e :: CanHappen(c, w, e) && w' == After(c, w, e)
  }

  // ---- what a handler does to the table and the neighbour list ----

  lemma SendShareKeeps(n: Node, g: seq<LinkId>)
    requires Listed(n.nbrs, g)
    ensures var m := SendShareIfDone(n).node;
            Listed(m.nbrs, g) && m.table == n.table && m.lastTimestamp == n.lastTimestamp
    ensures forall o :: o in SendShareIfDone(n).outs ==> o.msg.Share?
  {
  }

  lemma SendKeepsTable(n: Node, g: seq<LinkId>)
    requires Listed(n.nbrs, g)
    ensures var m := SendIfDone(n).node;
            m.lastTimestamp == n.lastTimestamp && Listed(m.nbrs, g)
    ensures forall o :: o in SendIfDone(n).outs ==> !o.msg.SetHlmac?
  {
    var b := SendLoadIfDone(n);
    assert b.node.nbrs == n.nbrs && b.node.lastTimestamp == n.lastTimestamp;
    SendShareKeeps(b.node, g);
  }

  lemma EdgeKeepsTable(n: Node, g: seq<LinkId>)
    requires Listed(n.nbrs, g)
    ensures var m := BecomeEdge(n).node;
            m.lastTimestamp == n.lastTimestamp && Listed(m.nbrs, g)
    ensures forall o :: o in BecomeEdge(n).outs ==> !o.msg.SetHlmac?
  {
  }

  lemma CountedKeeps(n: Node, a: LinkId, addr: Addr, ts: nat, draw: int, g: seq<LinkId>)
    requires Listed(n.nbrs, g) && |addr| > 0
    ensures var m := CountDown(Offer(n, a, addr, ts, draw));
            && Listed(m.nbrs, g)
            && m.lastTimestamp == if HasRoom(Kept(n.table, ts), n.maxHlmac) && (n.lastTimestamp < ts || n.lastTimestamp == 0) then ts else n.lastTimestamp
  {
  }

  /** OnSetHlmac in terms of what matters here. */
  lemma SetEffect(n: Node, a: LinkId, addr: Addr, ts: nat, draw: int, g: seq<LinkId>)
    requires Listed(n.nbrs, g) && |addr| > 0
    ensures var r := OnSetHlmac(n, a, addr, ts, draw);
            && SameIdentity(n, r.node) && Listed(r.node.nbrs, g)
            && r.node.table == (if Offered(n, addr, ts) then Added(n.table, addr, ts, n.maxHlmac) else n.table)
            && r.node.lastTimestamp == (if Accepted(n, addr, ts) && (n.lastTimestamp < ts || n.lastTimestamp == 0) then ts else n.lastTimestamp)
            && forall o :: o in r.outs && o.msg.SetHlmac? ==> Accepted(n, addr, ts) && o in SetHlmacs(n.nbrs, a, addr, ts)
  {
    SetKeepsIdentity(n, a, addr, ts, draw);
    if Offered(n, addr, ts) {
      var m := CountDown(Offer(n, a, addr, ts, draw));
      CountedKeeps(n, a, addr, ts, draw, g);
      EdgeKeepsTable(m, g);
      SendKeepsTable(BecomeEdge(m).node, g);
    } else {
      SendKeepsTable(CountDown(n), g);
    }
  }

  lemma LoadEffect(n: Node, a: LinkId, value: int, g: seq<LinkId>)
    requires Listed(n.nbrs, g)
    ensures var m := OnLoad(n, a, value).node;
            SameIdentity(n, m) && Listed(m.nbrs, g) && m.table == n.table && m.lastTimestamp == n.lastTimestamp
  {
    LoadKeepsIdentity(n, a, value);
  }

  lemma ShareEffectHere(n: Node, a: LinkId, value: int, g: seq<LinkId>)
    requires Listed(n.nbrs, g)
    ensures var m := OnShare(n, a, value).node;
            SameIdentity(n, m) && Listed(m.nbrs, g) && m.table == n.table && m.lastTimestamp == n.lastTimestamp
  {
    ShareKeepsIdentity(n, a, value);
    AbsorbEffect(n, value, g);
  }

  lemma AbsorbEffect(n: Node, value: int, g: seq<LinkId>)
    requires Listed(n.nbrs, g)
    ensures var m := AbsorbShare(n, value).node;
            Listed(m.nbrs, g) && m.table == n.table && m.lastTimestamp == n.lastTimestamp
  {
    SendShareKeeps(AddShare(n, value), g);
  }

  /** A forwarded message names a neighbour and its id. */
  lemma {:induction false} ForwardedTo(nbrs: seq<Nbr>, sender: LinkId, addr: Addr, ts: nat, o: Out)
    requires o in SetHlmacs(nbrs, sender, addr, ts)
    ensures exists i :: 0 <= i < |nbrs| && o == Out(Some(nbrs[i].addr), SetHlmac(ts, addr, nbrs[i].id))
  {
    var l := |nbrs| - 1;
    if o in SetHlmacs(nbrs[..l], sender, addr, ts) {
      ForwardedTo(nbrs[..l], sender, addr, ts, o);
      var i :| 0 <= i < l && o == Out(Some(nbrs[..l][i].addr), SetHlmac(ts, addr, nbrs[..l][i].id));
      assert nbrs[..l][i] == nbrs[i];
    }
  }

  // ---- the invariant ----

  /** `v` has accepted `addr` in round `ts`. */
  predicate Holds(w: World, v: nat, ts: nat, addr: Addr)
    requires v < |w.log|
  {
    exists i :: 0 <= i < |w.log[v]| && w.log[v][i].ts == ts && w.log[v][i].addr == addr
  }

  /** The round of the whole network, as the root counts. */
  function Now(c: Config, w: World): int
    requires c.root < |w.nodes|
  {
    w.nodes[c.root].rootTimestamp
  }

  /** An accepted address comes from a neighbour that accepted its prefix in the same round. */
  ghost predicate Given(c: Config, w: World, v: nat, a: Accepting)
    requires v < |w.log| == |c.nbrs| && ConfigOk(c)
  {
    || (v == c.root && a.addr == [1])
    || (&& a.from < c.n && v in c.nbrs[a.from] && IdIn(c.nbrs[a.from], v) < 256
        && |a.addr| >= 2 && a.addr[|a.addr| - 1] == IdIn(c.nbrs[a.from], v)
        && Holds(w, a.from, a.ts, a.addr[..|a.addr| - 1]))
  }

  ghost predicate LogOk(c: Config, w: World, v: nat)
    requires ConfigOk(c) && |w.nodes| == |w.log| == c.n && v < c.n
  {
    forall i :: 0 <= i < |w.log[v]| ==> Given(c, w, v, w.log[v][i]) && w.log[v][i].ts <= Now(c, w)
  }

  ghost predicate WireOk(c: Config, w: World, x: Assignment)
    requires ConfigOk(c) && |w.nodes| == |w.log| == c.n
  {
    && x.src < c.n && x.dst in c.nbrs[x.src] && x.dst < c.n && IdIn(c.nbrs[x.src], x.dst) == x.id
    && Holds(w, x.src, x.ts, x.prefix) && x.ts <= Now(c, w)
  }

  /** The table of a common node is of its latest round, and holds every address of that round. */
  ghost predicate TableInv(c: Config, w: World, v: nat)
    requires ConfigOk(c) && |w.nodes| == |w.log| == c.n && v < c.n
  {
    var n := w.nodes[v];
    && (forall i :: 0 <= i < |n.table| ==> n.table[i].timestamp == n.lastTimestamp && Holds(w, v, n.lastTimestamp, n.table[i].address))
    && (forall i :: 0 <= i < |w.log[v]| ==>
          && w.log[v][i].ts <= n.lastTimestamp
          && (w.log[v][i].ts == n.lastTimestamp ==> TableEntry(w.log[v][i].addr, w.log[v][i].ts) in n.table))
  }

  ghost predicate RootInv(c: Config, w: World)
    requires ConfigOk(c) && |w.nodes| == |w.log| == c.n
  {
    var n := w.nodes[c.root];
    && n.rootTimestamp >= -1
    && (n.rootTimestamp == -1 ==> n.table == [])
    && (n.rootTimestamp >= 0 ==> n.table != [] && n.table[0] == TableEntry([1], n.rootTimestamp))
  }

  ghost predicate WorldInv(c: Config, w: World, maxHlmac: int)
  {
    && ConfigOk(c) && |w.nodes| == |w.log| == c.n
    && (forall v :: 0 <= v < c.n ==> Static(c, w, v, maxHlmac))
    && (forall v :: 0 <= v < c.n ==> LogOk(c, w, v))
    && (forall x :: x in w.sent ==> WireOk(c, w, x))
    && (forall v :: 0 <= v < c.n && v != c.root ==> TableInv(c, w, v))
    && RootInv(c, w)
  }

  // ---- every step keeps it ----

  /** `w'` has at least the log of `w`. */
  ghost predicate Longer(w: World, w': World)
  {
    |w'.log| == |w.log| && forall v :: 0 <= v < |w.log| ==> w.log[v] <= w'.log[v]
  }

  lemma HoldsGrows(w: World, w': World, v: nat, ts: nat, addr: Addr)
    requires Longer(w, w') && v < |w.log| && Holds(w, v, ts, addr)
    ensures Holds(w', v, ts, addr)
  {
    var i :| 0 <= i < |w.log[v]| && w.log[v][i].ts == ts && w.log[v][i].addr == addr;
    assert w'.log[v][i] == w.log[v][i];
  }

  lemma GivenGrows(c: Config, w: World, w': World, v: nat, a: Accepting)
    requires ConfigOk(c) && |w.log| == |w'.log| == |c.nbrs| && v < |w.log| && Longer(w, w') && Given(c, w, v, a)
    ensures Given(c, w', v, a)
  {
    if !(v == c.root && a.addr == [1]) {
      HoldsGrows(w, w', a.from, a.ts, a.addr[..|a.addr| - 1]);
    }
  }

  lemma WireGrows(c: Config, w: World, w': World, x: Assignment)
    requires ConfigOk(c) && |w.nodes| == |w.log| == |w'.nodes| == |w'.log| == c.n
    requires Longer(w, w') && Now(c, w) <= Now(c, w') && WireOk(c, w, x)
    ensures WireOk(c, w', x)
  {
    HoldsGrows(w, w', x.src, x.ts, x.prefix);
  }

  /** Accepted addresses are never empty. */
  lemma HeldNonEmpty(c: Config, w: World, v: nat, ts: nat, addr: Addr, maxHlmac: int)
    requires WorldInv(c, w, maxHlmac) && v < c.n && Holds(w, v, ts, addr)
    ensures addr != [] && ts <= Now(c, w)
  {
    assert LogOk(c, w, v);
  }

  /** One node's log grows by at most one well-founded entry; the rest of the world follows. */
  lemma LogsKeep(c: Config, w: World, w': World, v: nat, more: seq<Accepting>, maxHlmac: int)
    requires WorldInv(c, w, maxHlmac) && v < c.n && |w'.nodes| == |w'.log| == c.n
    requires w'.log == w.log[v := w.log[v] + more] && Now(c, w) <= Now(c, w')
    requires forall a :: a in more ==> Given(c, w, v, a) && a.ts <= Now(c, w')
    ensures Longer(w, w')
    ensures forall u :: 0 <= u < c.n ==> LogOk(c, w', u)
    ensures forall x :: x in w.sent ==> WireOk(c, w', x)
  {
    forall u | 0 <= u < c.n
      ensures LogOk(c, w', u)
    {
      assert LogOk(c, w, u);
      forall i | 0 <= i < |w'.log[u]|
        ensures Given(c, w', u, w'.log[u][i]) && w'.log[u][i].ts <= Now(c, w')
      {
        if u == v && i >= |w.log[v]| {
          assert w'.log[u][i] in more;
        }
        GivenGrows(c, w, w', u, w'.log[u][i]);
      }
    }
    forall x | x in w.sent
      ensures WireOk(c, w', x)
    {
      WireGrows(c, w, w', x);
    }
  }

  /** Messages forwarded after accepting `addr` are in order. */
  lemma ForwardOk(c: Config, w': World, v: nat, nbrs: seq<Nbr>, sender: LinkId, addr: Addr, ts: nat, o: Out)
    requires ConfigOk(c) && |w'.nodes| == |w'.log| == c.n && v < c.n && Listed(nbrs, c.nbrs[v])
    requires o in SetHlmacs(nbrs, sender, addr, ts) && Holds(w', v, ts, addr) && ts <= Now(c, w')
    ensures o.msg.SetHlmac? && o.dest.Some? && WireOk(c, w', Assignment(v, o.dest.value, o.msg.timestamp, o.msg.prefix, o.msg.id))
  {
    ForwardedTo(nbrs, sender, addr, ts, o);
    var i :| 0 <= i < |nbrs| && o == Out(Some(nbrs[i].addr), SetHlmac(ts, addr, nbrs[i].id));
    assert TableOk(c, v);
    IdInUnique(c.nbrs[v], i);
  }

  /** What `v` accepts when a SetHLMAC arrives. */
  function Gains(w: World, x: Assignment): seq<Accepting>
    requires x.dst < |w.nodes|
  {
    if Accepted(w.nodes[x.dst], x.prefix + [x.id], x.ts) then [Accepting(x.ts, x.prefix + [x.id], x.src)] else []
  }

  lemma GainIsGiven(c: Config, w: World, x: Assignment, maxHlmac: int)
    requires WorldInv(c, w, maxHlmac) && x in w.sent && x.dst < c.n
    ensures Given(c, w, x.dst, Accepting(x.ts, x.prefix + [x.id], x.src)) && x.ts <= Now(c, w)
  {
    assert WireOk(c, w, x);
    HeldNonEmpty(c, w, x.src, x.ts, x.prefix, maxHlmac);
    assert (x.prefix + [x.id])[..|x.prefix|] == x.prefix;
  }

  /** A message of the batch that forwards `addr`. */
  ghost predicate ForwardedWire(n: Node, v: nat, sender: LinkId, addr: Addr, ts: nat, y: Assignment)
  {
    exists o :: o in SetHlmacs(n.nbrs, sender, addr, ts) && o.msg.SetHlmac? && o.dest.Some?
             && y == Assignment(v, o.dest.value, o.msg.timestamp, o.msg.prefix, o.msg.id)
  }

  /** What an arrival changes. */
  ghost predicate ArriveStep(c: Config, w: World, w': World, x: Assignment)
    requires |w.nodes| == |w.log| == |c.nbrs| == c.n && x.dst < c.n
  {
    var v, addr := x.dst, x.prefix + [x.id];
    && |w'.nodes| == c.n && w'.log == w.log[v := w.log[v] + Gains(w, x)]
    && (forall u :: 0 <= u < c.n && u != v ==> w'.nodes[u] == w.nodes[u])
    && var n, n' := w.nodes[v], w'.nodes[v];
    && SameIdentity(n, n') && Listed(n'.nbrs, c.nbrs[v])
    && n'.table == (if Offered(n, addr, x.ts) then Added(n.table, addr, x.ts, n.maxHlmac) else n.table)
    && n'.lastTimestamp == (if Accepted(n, addr, x.ts) && (n.lastTimestamp < x.ts || n.lastTimestamp == 0) then x.ts else n.lastTimestamp)
    && forall y :: y in w'.sent && y !in w.sent ==> Accepted(n, addr, x.ts) && ForwardedWire(n, v, x.src, addr, x.ts, y)
  }

  lemma ArriveIsStep(c: Config, w: World, x: Assignment, draw: int, maxHlmac: int)
    requires WorldInv(c, w, maxHlmac) && CanHappen(c, w, Arrive(x, draw))
    ensures ArriveStep(c, w, After(c, w, Arrive(x, draw)), x)
  {
    var w', v, n, addr := After(c, w, Arrive(x, draw)), x.dst, w.nodes[x.dst], x.prefix + [x.id];
    assert Static(c, w, v, maxHlmac);
    SetEffect(n, x.src, addr, x.ts, draw, c.nbrs[v]);
    forall y | y in w'.sent && y !in w.sent
      ensures Accepted(n, addr, x.ts) && ForwardedWire(n, v, x.src, addr, x.ts, y)
    {
      var outs := OnSetHlmac(n, x.src, addr, x.ts, draw).outs;
      var o :| o in outs && o.msg.SetHlmac? && o.dest.Some? && y == Assignment(v, o.dest.value, o.msg.timestamp, o.msg.prefix, o.msg.id);
      assert o in SetHlmacs(n.nbrs, x.src, addr, x.ts);
    }
  }

  lemma ArriveTable(c: Config, w: World, w': World, x: Assignment, maxHlmac: int)
    requires WorldInv(c, w, maxHlmac) && (maxHlmac == -1 || maxHlmac >= 1)
    requires x.dst < c.n && x.dst != c.root && ArriveStep(c, w, w', x)
    ensures TableInv(c, w', x.dst)
  {
    var v, n, addr := x.dst, w.nodes[x.dst], x.prefix + [x.id];
    assert Static(c, w, v, maxHlmac) && TableInv(c, w, v);
    TableFollows(c, w, w', x, n, w'.nodes[v], addr, maxHlmac);
  }

  /** The two cases of a table after an arrival. */
  lemma TableFollows(c: Config, w: World, w': World, x: Assignment, n: Node, n': Node, addr: Addr, maxHlmac: int)
    requires WorldInv(c, w, maxHlmac) && x.dst < c.n && x.dst != c.root && n == w.nodes[x.dst]
    requires |w'.nodes| == |w'.log| == c.n && n' == w'.nodes[x.dst]
    requires (n'.table == n.table && n'.lastTimestamp == n.lastTimestamp && w'.log[x.dst] == w.log[x.dst]) ||
             (n'.table == Kept(n.table, x.ts) + [TableEntry(addr, x.ts)] && n'.lastTimestamp == x.ts >= n.lastTimestamp
              && w'.log[x.dst] == w.log[x.dst] + [Accepting(x.ts, addr, x.src)])
    ensures TableInv(c, w', x.dst)
  {
    var v := x.dst;
    assert TableInv(c, w, v);
    if w'.log[v] != w.log[v] {
      assert w'.log[v][|w.log[v]|] == Accepting(x.ts, addr, x.src);
      assert n'.table[|n'.table| - 1] == TableEntry(addr, x.ts);
      forall i | 0 <= i < |n'.table|
        ensures n'.table[i].timestamp == x.ts && Holds(w', v, x.ts, n'.table[i].address)
      {
        if i < |n'.table| - 1 {
          assert n'.table[i] == n.table[i];
          var k :| 0 <= k < |w.log[v]| && w.log[v][k].ts == n.lastTimestamp && w.log[v][k].addr == n.table[i].address;
          assert w'.log[v][k] == w.log[v][k];
        }
      }
      forall i | 0 <= i < |w'.log[v]|
        ensures w'.log[v][i].ts <= x.ts
        ensures w'.log[v][i].ts == x.ts ==> TableEntry(w'.log[v][i].addr, w'.log[v][i].ts) in n'.table
      {
        if i < |w.log[v]| {
          assert w'.log[v][i] == w.log[v][i];
        }
      }
    } else {
      forall i | 0 <= i < |n.table|
        ensures Holds(w', v, n.lastTimestamp, n.table[i].address)
      {
        assert Holds(w, v, n.lastTimestamp, n.table[i].address);
      }
    }
  }

  lemma ArriveWires(c: Config, w: World, w': World, x: Assignment)
    requires ConfigOk(c) && |w.nodes| == |w.log| == c.n && x.dst < c.n && ArriveStep(c, w, w', x)
    requires Listed(w.nodes[x.dst].nbrs, c.nbrs[x.dst]) && x.ts <= Now(c, w')
    ensures forall y :: y in w'.sent && y !in w.sent ==> WireOk(c, w', y)
  {
    var v, n, addr := x.dst, w.nodes[x.dst], x.prefix + [x.id];
    forall y | y in w'.sent && y !in w.sent
      ensures WireOk(c, w', y)
    {
      assert ForwardedWire(n, v, x.src, addr, x.ts, y);
      var o :| o in SetHlmacs(n.nbrs, x.src, addr, x.ts) && o.msg.SetHlmac? && o.dest.Some?
            && y == Assignment(v, o.dest.value, o.msg.timestamp, o.msg.prefix, o.msg.id);
      assert w'.log[v][|w.log[v]|] == Accepting(x.ts, addr, x.src);
      assert Holds(w', v, x.ts, addr);
      ForwardOk(c, w', v, n.nbrs, x.src, addr, x.ts, o);
    }
  }

  lemma ArriveRoot(c: Config, w: World, w': World, x: Assignment, maxHlmac: int)
    requires WorldInv(c, w, maxHlmac) && x.dst < c.n && ArriveStep(c, w, w', x) && x.ts <= Now(c, w)
    ensures RootInv(c, w') && Now(c, w') == Now(c, w)
  {
    var v, n := x.dst, w.nodes[x.dst];
    if v == c.root {
      assert w'.nodes[v].table == n.table || w'.nodes[v].table == n.table + [TableEntry(x.prefix + [x.id], x.ts)];
    } else {
      assert w'.nodes[c.root] == w.nodes[c.root];
    }
  }

  lemma ArriveStatic(c: Config, w: World, w': World, x: Assignment, maxHlmac: int)
    requires WorldInv(c, w, maxHlmac) && x.dst < c.n && ArriveStep(c, w, w', x)
    ensures forall u :: 0 <= u < c.n ==> Static(c, w', u, maxHlmac)
  {
    forall u | 0 <= u < c.n
      ensures Static(c, w', u, maxHlmac)
    {
      assert Static(c, w, u, maxHlmac);
    }
  }

  lemma ArriveTables(c: Config, w: World, w': World, x: Assignment, maxHlmac: int)
    requires WorldInv(c, w, maxHlmac) && x.dst < c.n && ArriveStep(c, w, w', x)
    requires x.dst != c.root ==> TableInv(c, w', x.dst)
    ensures forall u :: 0 <= u < c.n && u != c.root ==> TableInv(c, w', u)
  {
    forall u | 0 <= u < c.n && u != c.root
      ensures TableInv(c, w', u)
    {
      if u != x.dst {
        TableStays(c, w, w', u, maxHlmac);
      }
    }
  }

  lemma ArriveLogs(c: Config, w: World, w': World, x: Assignment, maxHlmac: int)
    requires WorldInv(c, w, maxHlmac) && x in w.sent && x.dst < c.n && ArriveStep(c, w, w', x) && Now(c, w') == Now(c, w)
    ensures forall u :: 0 <= u < c.n ==> LogOk(c, w', u)
    ensures forall y :: y in w'.sent ==> WireOk(c, w', y)
  {
    GainIsGiven(c, w, x, maxHlmac);
    LogsKeep(c, w, w', x.dst, Gains(w, x), maxHlmac);
    assert Static(c, w, x.dst, maxHlmac);
    ArriveWires(c, w, w', x);
  }

  lemma ArriveKeeps(c: Config, w: World, w': World, x: Assignment, maxHlmac: int)
    requires WorldInv(c, w, maxHlmac) && (maxHlmac == -1 || maxHlmac >= 1)
    requires x in w.sent && x.dst < c.n && ArriveStep(c, w, w', x)
    ensures WorldInv(c, w', maxHlmac)
  {
    assert WireOk(c, w, x);
    ArriveRoot(c, w, w', x, maxHlmac);
    ArriveStatic(c, w, w', x, maxHlmac);
    ArriveLogs(c, w, w', x, maxHlmac);
    if x.dst != c.root {
      ArriveTable(c, w, w', x, maxHlmac);
    }
    ArriveTables(c, w, w', x, maxHlmac);
  }

  lemma ArriveInv(c: Config, w: World, x: Assignment, draw: int, maxHlmac: int)
    requires WorldInv(c, w, maxHlmac) && (maxHlmac == -1 || maxHlmac >= 1) && CanHappen(c, w, Arrive(x, draw))
    ensures WorldInv(c, After(c, w, Arrive(x, draw)), maxHlmac)
  {
    ArriveIsStep(c, w, x, draw, maxHlmac);
    ArriveKeeps(c, w, After(c, w, Arrive(x, draw)), x, maxHlmac);
  }

  lemma TableStays(c: Config, w: World, w': World, u: nat, maxHlmac: int)
    requires WorldInv(c, w, maxHlmac) && u < c.n && u != c.root && |w'.nodes| == |w'.log| == c.n
    requires w'.nodes[u].table == w.nodes[u].table && w'.nodes[u].lastTimestamp == w.nodes[u].lastTimestamp
    requires w'.log[u] == w.log[u]
    ensures TableInv(c, w', u)
  {
    assert TableInv(c, w, u);
    var n := w.nodes[u];
    forall i | 0 <= i < |n.table|
      ensures Holds(w', u, n.lastTimestamp, n.table[i].address)
    {
      assert Holds(w, u, n.lastTimestamp, n.table[i].address);
    }
  }

  /** What the root's timer changes. */
  ghost predicate TimerStep(c: Config, w: World, w': World)
    requires |w.nodes| == |w.log| == |c.nbrs| == c.n && c.root < c.n && w.nodes[c.root].rootTimestamp >= -1
  {
    var v, n := c.root, w.nodes[c.root];
    var ts := n.rootTimestamp + 1;
    && |w'.nodes| == c.n && w'.log == w.log[v := w.log[v] + [Accepting(ts, [1], v)]]
    && (forall u :: 0 <= u < c.n && u != v ==> w'.nodes[u] == w.nodes[u])
    && var n' := w'.nodes[v];
    && n'.self == n.self && n'.isRoot == n.isRoot && n'.maxHlmac == n.maxHlmac
    && n'.rootTimestamp == ts && Listed(n'.nbrs, c.nbrs[v]) && n'.table == [TableEntry([1], ts)]
    && forall y :: y in w'.sent && y !in w.sent ==> ForwardedWire(n, v, v, [1], ts, y)
  }

  lemma TimerIsStep(c: Config, w: World, draw: int, maxHlmac: int)
    requires WorldInv(c, w, maxHlmac) && (maxHlmac == -1 || maxHlmac >= 1) && CanHappen(c, w, RootTimer(draw))
    ensures TimerStep(c, w, After(c, w, RootTimer(draw)))
  {
    var w', v, n := After(c, w, RootTimer(draw)), c.root, w.nodes[c.root];
    var ts := n.rootTimestamp + 1;
    assert Static(c, w, v, maxHlmac) && RootInv(c, w);
    assert Kept(n.table, ts) == [];
    TimerEffect(n, draw, c.nbrs[v]);
    forall y | y in w'.sent && y !in w.sent
      ensures ForwardedWire(n, v, v, [1], ts, y)
    {
      var outs := OnRootTimer(n, draw).outs;
      var o :| o in outs && o.msg.SetHlmac? && o.dest.Some? && y == Assignment(v, o.dest.value, o.msg.timestamp, o.msg.prefix, o.msg.id);
      assert o in SetHlmacs(n.nbrs, v, [1], ts);
    }
  }

  lemma TimerWires(c: Config, w: World, w': World)
    requires ConfigOk(c) && |w.nodes| == |w.log| == c.n && w.nodes[c.root].rootTimestamp >= -1 && TimerStep(c, w, w')
    requires Listed(w.nodes[c.root].nbrs, c.nbrs[c.root])
    ensures forall y :: y in w'.sent && y !in w.sent ==> WireOk(c, w', y)
  {
    var v, n := c.root, w.nodes[c.root];
    var ts := n.rootTimestamp + 1;
    assert w'.log[v][|w.log[v]|] == Accepting(ts, [1], v);
    assert Holds(w', v, ts, [1]);
    forall y | y in w'.sent && y !in w.sent
      ensures WireOk(c, w', y)
    {
      assert ForwardedWire(n, v, v, [1], ts, y);
      var o :| o in SetHlmacs(n.nbrs, v, [1], ts) && o.msg.SetHlmac? && o.dest.Some?
            && y == Assignment(v, o.dest.value, o.msg.timestamp, o.msg.prefix, o.msg.id);
      ForwardOk(c, w', v, n.nbrs, v, [1], ts, o);
    }
  }

  lemma TimerLogs(c: Config, w: World, w': World, maxHlmac: int)
    requires WorldInv(c, w, maxHlmac) && TimerStep(c, w, w')
    ensures forall u :: 0 <= u < c.n ==> LogOk(c, w', u)
    ensures forall y :: y in w'.sent ==> WireOk(c, w', y)
  {
    LogsKeep(c, w, w', c.root, [Accepting(w.nodes[c.root].rootTimestamp + 1, [1], c.root)], maxHlmac);
    assert Static(c, w, c.root, maxHlmac);
    TimerWires(c, w, w');
  }

  lemma TimerInv(c: Config, w: World, draw: int, maxHlmac: int)
    requires WorldInv(c, w, maxHlmac) && (maxHlmac == -1 || maxHlmac >= 1) && CanHappen(c, w, RootTimer(draw))
    ensures WorldInv(c, After(c, w, RootTimer(draw)), maxHlmac)
  {
    TimerIsStep(c, w, draw, maxHlmac);
    TimerKeeps(c, w, After(c, w, RootTimer(draw)), maxHlmac);
  }

  lemma TimerKeeps(c: Config, w: World, w': World, maxHlmac: int)
    requires WorldInv(c, w, maxHlmac) && TimerStep(c, w, w')
    ensures WorldInv(c, w', maxHlmac)
  {
    TimerLogs(c, w, w', maxHlmac);
    forall u | 0 <= u < c.n
      ensures Static(c, w', u, maxHlmac)
      ensures u != c.root ==> TableInv(c, w', u)
    {
      assert Static(c, w, u, maxHlmac);
      if u != c.root {
        TableStays(c, w, w', u, maxHlmac);
      }
    }
  }

  lemma TimerEffect(n: Node, draw: int, g: seq<LinkId>)
    requires n.rootTimestamp >= -1 && Listed(n.nbrs, g) && (n.maxHlmac == -1 || n.maxHlmac >= 1)
    requires Kept(n.table, n.rootTimestamp + 1) == []
    ensures var m := OnRootTimer(n, draw).node;
            && m.self == n.self && m.isRoot == n.isRoot && m.maxHlmac == n.maxHlmac
            && m.rootTimestamp == n.rootTimestamp + 1 && Listed(m.nbrs, g)
            && m.table == [TableEntry([1], n.rootTimestamp + 1)] && m.lastTimestamp == n.lastTimestamp
  {
  }

  lemma ReportInv(c: Config, w: World, w': World, v: nat, maxHlmac: int)
    requires WorldInv(c, w, maxHlmac) && v < c.n && |w'.nodes| == c.n && w'.log == w.log && w'.sent == w.sent
    requires forall u :: 0 <= u < c.n && u != v ==> w'.nodes[u] == w.nodes[u]
    requires var n, m := w.nodes[v], w'.nodes[v];
             SameIdentity(n, m) && Listed(m.nbrs, c.nbrs[v]) && m.table == n.table && m.lastTimestamp == n.lastTimestamp
    ensures WorldInv(c, w', maxHlmac)
  {
    assert Static(c, w, v, maxHlmac);
    assert w.log[v] + [] == w.log[v];
    LogsKeep(c, w, w', v, [], maxHlmac);
    forall u | 0 <= u < c.n
      ensures Static(c, w', u, maxHlmac)
    {
      assert Static(c, w, u, maxHlmac);
    }
    forall u | 0 <= u < c.n && u != c.root
      ensures TableInv(c, w', u)
    {
      TableStays(c, w, w', u, maxHlmac);
    }
  }

  lemma HappensInv(c: Config, w: World, w': World, maxHlmac: int)
    requires WorldInv(c, w, maxHlmac) && (maxHlmac == -1 || maxHlmac >= 1) && Happens(c, w, w')
    ensures WorldInv(c, w', maxHlmac)
  {
    var e :| CanHappen(c, w, e) && w' == After(c, w, e);
    match e {
      case RootTimer(draw) => TimerInv(c, w, draw, maxHlmac);
      case Arrive(x, draw) => ArriveInv(c, w, x, draw, maxHlmac);
      case LoadArrives(v, u, value) =>
        assert Static(c, w, v, maxHlmac);
        LoadEffect(w.nodes[v], u, value, c.nbrs[v]);
        ReportInv(c, w, w', v, maxHlmac);
      case ShareArrives(v, u, value) =>
        assert Static(c, w, v, maxHlmac);
        ShareEffectHere(w.nodes[v], u, value, c.nbrs[v]);
        ReportInv(c, w, w', v, maxHlmac);
    }
  }

  lemma BootedInv(c: Config, w: World, maxHlmac: int)
    requires Booted(c, w, maxHlmac)
    ensures WorldInv(c, w, maxHlmac)
  {
    forall v | 0 <= v < c.n
      ensures Static(c, w, v, maxHlmac) && LogOk(c, w, v) && TableInv(c, w, v)
    {
      assert w.log[v] == [];
    }
    assert w.nodes[c.root].table == [];
  }

  lemma NextHappens(c: Config, run: seq<World>, i: nat)
    requires AllHappen(c, run) && i + 1 < |run|
    ensures Happens(c, run[i], run[i + 1])
  {
    assert HappensAt(c, run, i);
  }

  lemma InvNext(c: Config, run: seq<World>, i: nat, maxHlmac: int)
    requires AllHappen(c, run) && i + 1 < |run| && (maxHlmac == -1 || maxHlmac >= 1) && WorldInv(c, run[i], maxHlmac)
    ensures WorldInv(c, run[i + 1], maxHlmac)
  {
    NextHappens(c, run, i);
    HappensInv(c, run[i], run[i + 1], maxHlmac);
  }

  lemma {:induction false} InvFrom(c: Config, run: seq<World>, i: nat, maxHlmac: int)
    requires AllHappen(c, run) && (maxHlmac == -1 || maxHlmac >= 1) && i < |run| && WorldInv(c, run[0], maxHlmac)
    ensures WorldInv(c, run[i], maxHlmac)
  {
    if i > 0 {
      InvFrom(c, run, i - 1, maxHlmac);
      InvNext(c, run, i - 1, maxHlmac);
    }
  }

  /** Every state of every history satisfies the invariant. */
  lemma HistoryInv(c: Config, run: seq<World>, i: nat, maxHlmac: int)
    requires IsHistory(c, run, maxHlmac) && (maxHlmac == -1 || maxHlmac >= 1) && i < |run|
    ensures WorldInv(c, run[i], maxHlmac)
  {
    BootedInv(c, run[0], maxHlmac);
    InvFrom(c, run, i, maxHlmac);
  }
}
