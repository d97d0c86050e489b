/** The main results on whole runs of a round. */
module RoundTheorems {
  import opened Types
  import opened Sums
  import opened NodeModel
  import opened RoundLocal
  import opened Round
  import opened RoundInv
  import opened RoundTree
  import opened RoundSafety
  import opened RoundCount
  import opened RoundLoads
  import opened RoundFlow
  import opened Dispatch

  /** With a second node in a connected network the root has a neighbour. */
  lemma RootHasNeighbour(c: Config)
    requires ConfigOk(c) && Connected(c) && c.n >= 2
    ensures c.nbrs[c.root] != []
  {
    var v := if c.root == 0 then 1 else 0;
    assert Reachable(c, v);
    var p :| PathTo(c, p, v);
    assert Hop(c, p, 1);
  }

  /**
   * Termination detection is sound. In every asynchronous run, with messages delayed,
   * reordered or lost, has_converged at the root means that every node has joined and sent
   * its Load and Share, that no message is under way, that every common node holds exactly
   * 100, and that the root holds its start load, everybody else's surplus and what the Shares of
   * its children wrapped, which is nothing where these fit a `short`.
   */
  lemma TerminationDetection(c: Config, run: seq<Sys>, i: nat)
    requires IsRun(c, run) && ConfigOk(c) && Connected(c) && c.n >= 2 && i < |run|
    ensures |run[i].nodes| == |run[i].hist| == c.n
    ensures run[i].nodes[c.root].hasConverged ==> Finished(c, run[i]) && RootAccounts(c, run[i])
  {
    RootHasNeighbour(c);
    RunTotal(c, run, i);
    if run[i].nodes[c.root].hasConverged {
      ConvergedIsFinished(c, run[i]);
      RootLoad(c, run[i]);
    }
  }

  /**
   * A round ends, and with reliable delivery it ends well: a run has at most 2|E| + (n-1)
   * steps, and a state in which every message has been delivered has converged after exactly
   * 2|E| - (n-1) SetHLMACs, n-1 Loads and n-1 Shares.
   */
  lemma Termination(c: Config, run: seq<Sys>, i: nat)
    requires IsRun(c, run) && ConfigOk(c) && Connected(c) && c.n >= 2 && i < |run|
    ensures |run| - 1 <= 2 * Edges(c) + (c.n - 1)
    ensures |run[i].nodes| == |run[i].hist| == c.n
    ensures Quiet(c, run[i]) ==>
              && run[i].nodes[c.root].hasConverged && Finished(c, run[i])
              && SentOf(c, run[i], KSet) == 2 * Edges(c) - (c.n - 1)
              && SentOf(c, run[i], KLoad) == c.n - 1 && SentOf(c, run[i], KShare) == c.n - 1
  {
    RootHasNeighbour(c);
    RunLength(c, run);
    RunInv(c, run, i);
    if Quiet(c, run[i]) {
      QuietIsConverged(c, run[i]);
      FinishedCounts(c, run[i]);
    }
  }

  /** A network of one node is the exception: nothing ever happens and has_converged stays unset. */
  lemma SingleNodeNeverConverges(c: Config, nodes: seq<Node>, draw: int, e: Event)
    requires ReadyFor(c, nodes) && c.n == 1
    ensures var s := Begin(c, nodes, draw);
            !s.nodes[c.root].hasConverged && !Enabled(c, s, e)
  {
    var s := Begin(c, nodes, draw);
    assert TableOk(c, 0);
    assert NbSet(c, 0) == {};
    NbCount(c, 0);
    RootOpens(nodes[0], draw, PlaceAt(c, 0));
    assert OnRootTimer(nodes[0], draw).outs == [];
    assert To([], e.ch.kind, e.ch.dst) == [];
    assert s.net(e.ch) == if e.ch.src == c.root then [] + Fresh(To([], e.ch.kind, e.ch.dst)) else [];
  }

  /**
   * Load conservation along every run, in networks of any size: the loads and the Shares on the
   * network are the initial loads and what the Shares sent so far wrapped. Nothing wraps where each
   * surplus fits a `short`, as it does up to 328 nodes.
   */
  lemma RunConserves(c: Config, run: seq<Sys>, i: nat)
    requires IsRun(c, run) && ConfigOk(c) && c.nbrs[c.root] != [] && i < |run|
    ensures |run[i].nodes| == |run[i].hist| == c.n
    ensures Sum(Loads(c, run[i])) + UndeliveredTotal(c, run[i]) == Sum(Starts(c, run[i])) + Sum(Wraps(c, run[i]))
    ensures Sum(Wraps(c, run[i])) % 65536 == 0
    ensures AllFit(c, run[i]) ==> Sum(Loads(c, run[i])) + UndeliveredTotal(c, run[i]) == Sum(Starts(c, run[i]))
    ensures c.n <= 328 ==> AllFit(c, run[i])
  {
    RunTotal(c, run, i);
    Conservation(c, run[i]);
    FitIsExact(c, run[i]);
    if c.n <= 328 {
      SmallIsExact(c, run[i]);
    }
  }

  /** The surplus of each node that has sent its Share fits a `short`. */
  ghost predicate AllFit(c: Config, s: Sys)
    requires |s.nodes| == |s.hist| == c.n
  {
    forall v :: 0 <= v < c.n && HasShared(c, s, v) ==> -32768 <= NodeSurplus(s, v) <= 32767
  }

  lemma FitIsExact(c: Config, s: Sys)
    requires Inv(c, s)
    ensures AllFit(c, s) <==> forall v :: 0 <= v < c.n ==> Exact(c, s, v)
  {
    forall v | 0 <= v < c.n && HasShared(c, s, v)
      ensures Exact(c, s, v) <==> -32768 <= NodeSurplus(s, v) <= 32767
    {
      NodeBooks(c, s, v);
    }
    if forall v :: 0 <= v < c.n ==> Exact(c, s, v) {
      forall v | 0 <= v < c.n && HasShared(c, s, v)
        ensures -32768 <= NodeSurplus(s, v) <= 32767
      {
        assert Exact(c, s, v);
      }
    }
  }

  /**
   * Flow balance after any converged round, in networks of any size. Initial load plus recorded
   * flows is 100 and what is stale, modulo 2^16, and exactly if and only if the node's surplus lies between
   * -32767 and 32768. A tree edge keeps what EdgeKept says. Up to 328 nodes neither limit is met.
   */
  lemma FlowBalance(c: Config, run: seq<Sys>, i: nat, v: nat)
    requires IsRun(c, run) && ConfigOk(c) && Connected(c) && 2 <= c.n && i < |run|
    requires |run[i].nodes| == |run[i].hist| == c.n && run[i].nodes[c.root].hasConverged
    requires v < c.n && v != c.root
    ensures |run[0].nodes| == c.n
    ensures Imbalance(c, run[i], v, Flows(run[0])) % 65536 == 0
    ensures Imbalance(c, run[i], v, Flows(run[0])) == 0 <==> -32767 <= NodeSurplus(run[i], v) <= 32768
    ensures forall k, l :: TreeEdge(c, run[i], v, k, l) ==>
              && k < |run[i].nodes[v].nbrs| && l < |run[i].nodes[Par(run[i], v)].nbrs| == |Flows(run[0])[Par(run[i], v)]|
              && EdgeKept(run[i].nodes[v].nbrs[k].inOut, run[i].nodes[Par(run[i], v)].nbrs[l].inOut, Extra(run[i], v), Flows(run[0])[Par(run[i], v)][l])
    ensures c.n <= 328 ==> Imbalance(c, run[i], v, Flows(run[0])) == 0 && Extra(run[i], v) != -32768
  {
    var s, f := run[i], Flows(run[0]);
    RootHasNeighbour(c);
    RunTotal(c, run, i);
    RunFlow(c, run, i);
    ConvergedIsFinished(c, s);
    NodeBalance(c, s, v, f);
    if c.n <= 328 {
      SmallNodeBalance(c, s, v);
    }
    forall k, l | TreeEdge(c, s, v, k, l)
      ensures k < |s.nodes[v].nbrs| && l < |s.nodes[Par(s, v)].nbrs| == |f[Par(s, v)]|
      ensures EdgeKept(s.nodes[v].nbrs[k].inOut, s.nodes[Par(s, v)].nbrs[l].inOut, Extra(s, v), f[Par(s, v)][l])
    {
      EdgeBalance(c, s, v, k, l, f);
    }
  }

  /** No flow was recorded before the round. */
  ghost predicate FromNoFlow(run: seq<Sys>)
  {
    run != [] && forall v, i :: 0 <= v < |run[0].nodes| && 0 <= i < |run[0].nodes[v].nbrs| ==> run[0].nodes[v].nbrs[i].inOut == 0
  }

  /**
   * Where no flow was recorded before, as after booting, nothing is stale: initial load plus flows
   * is exactly 100 if and only if the surplus lies between -32767 and 32768, and a tree edge records
   * opposite flows if and only if the child's Share is not -32768. Up to 328 nodes both always hold.
   */
  lemma FirstFlowBalance(c: Config, run: seq<Sys>, i: nat, v: nat)
    requires IsRun(c, run) && FromNoFlow(run) && ConfigOk(c) && Connected(c) && 2 <= c.n && i < |run|
    requires |run[i].nodes| == |run[i].hist| == c.n && run[i].nodes[c.root].hasConverged
    requires v < c.n && v != c.root
    ensures var all := run[i].hist[v].start + Sum(InOuts(run[i].nodes[v].nbrs));
            && (all - 100) % 65536 == 0
            && (all == 100 <==> -32767 <= NodeSurplus(run[i], v) <= 32768)
            && (c.n <= 328 ==> all == 100)
    ensures forall k, l :: TreeEdge(c, run[i], v, k, l) ==>
              && k < |run[i].nodes[v].nbrs| && l < |run[i].nodes[Par(run[i], v)].nbrs|
              && (run[i].nodes[v].nbrs[k].inOut == -run[i].nodes[Par(run[i], v)].nbrs[l].inOut <==> Extra(run[i], v) != -32768)
    ensures c.n <= 328 ==> Extra(run[i], v) != -32768
  {
    FlowBalance(c, run, i, v);
    SumZero(Stale(c, run[i], v, Flows(run[0])));
  }

  /** The entries of `v` for its parent and of the parent for `v`. */
  ghost predicate TreeEdge(c: Config, s: Sys, v: nat, k: int, l: int)
    requires |s.nodes| == |s.hist| == |c.nbrs| == c.n && v < c.n
  {
    var u := Par(s, v);
    u < c.n && 0 <= k < |c.nbrs[v]| && c.nbrs[v][k] == u && 0 <= l < |c.nbrs[u]| && c.nbrs[u][l] == v
  }

  /** A node that has joined, or still waits, can wait for the next round. */
  lemma WaitsAgain(c: Config, s: Sys, v: nat)
    requires Inv(c, s) && v < c.n
    ensures v != c.root ==> Waiting(s.nodes[v], PlaceAt(c.(ts := c.ts + 1), v))
    ensures v == c.root ==> RootReady(s.nodes[v], PlaceAt(c.(ts := c.ts + 1), v)) && s.nodes[v].self == v
  {
    assert NodeInv(c, s, v) && TableOk(c, v);
  }

  lemma NextConfigOk(c: Config, c': Config)
    requires ConfigOk(c) && c' == c.(ts := c.ts + 1)
    ensures ConfigOk(c')
  {
    forall v | 0 <= v < c.n
      ensures TableOk(c', v)
    {
      assert TableOk(c, v);
    }
  }

  /**
   * Rounds can follow one another: once the messages of a round are gone -- delivered or
   * lost -- its nodes are ready for the next timestamp.
   */
  lemma RoundsChain(c: Config, s: Sys)
    requires Inv(c, s)
    ensures ReadyFor(c.(ts := c.ts + 1), s.nodes)
  {
    NextConfigOk(c, c.(ts := c.ts + 1));
    WaitsAgain(c, s, c.root);
    forall v | 0 <= v < c.n && v != c.root
      ensures Waiting(s.nodes[v], PlaceAt(c.(ts := c.ts + 1), v))
    {
      WaitsAgain(c, s, v);
    }
  }

  /** The counters and flags of a joined node in every run. */
  lemma RunCounters(c: Config, run: seq<Sys>, i: nat, v: nat)
    requires IsRun(c, run) && ConfigOk(c) && c.nbrs[c.root] != [] && i < |run| && v < c.n
    ensures |run[i].nodes| == |run[i].hist| == c.n
    ensures J(c, run[i], v) ==>
              && run[i].nodes[v].hijosLoad == |Awaited(c, run[i], v, KLoad)|
              && run[i].nodes[v].hijosShare == |Awaited(c, run[i], v, KShare)|
    ensures J(c, run[i], v) && v != c.root ==>
              && (exists k :: 0 <= k < |run[i].nodes[v].nbrs| && run[i].nodes[v].nbrs[k].flag == 1)
              && (forall k, l :: 0 <= k < l < |run[i].nodes[v].nbrs| ==>
                   !(run[i].nodes[v].nbrs[k].flag == 1 && run[i].nodes[v].nbrs[l].flag == 1))
              && (run[i].nodes[v].edge <==>
                   (forall u :: u in c.nbrs[v] ==> Heard(c, run[i], KSet, u, v)) && (forall x :: 0 <= x < c.n ==> !ChildOf(c, run[i], x, v)))
  {
    RunInv(c, run, i);
    var s := run[i];
    if J(c, s, v) {
      CountersExact(c, s, v);
      if v != c.root {
        EdgeExact(c, s, v);
        UniqueFlag(c, s, v);
      }
    }
  }

  lemma UniqueFlag(c: Config, s: Sys, v: nat)
    requires Inv(c, s) && v < c.n && J(c, s, v) && v != c.root
    ensures exists k :: 0 <= k < |s.nodes[v].nbrs| && s.nodes[v].nbrs[k].flag == 1
    ensures forall k, l :: 0 <= k < l < |s.nodes[v].nbrs| ==> !(s.nodes[v].nbrs[k].flag == 1 && s.nodes[v].nbrs[l].flag == 1)
  {
    assert NodeInv(c, s, v) && TableOk(c, v);
    forall k | 0 <= k < |c.nbrs[v]|
      ensures k < |s.nodes[v].nbrs| && (s.nodes[v].nbrs[k].flag == 1 <==> c.nbrs[v][k] == Par(s, v))
    {
      OneParentFlag(c, s, v, k);
    }
    assert Par(s, v) in c.nbrs[v];
    var k :| 0 <= k < |c.nbrs[v]| && c.nbrs[v][k] == Par(s, v);
    assert s.nodes[v].nbrs[k].flag == 1;
  }

  /** The flag of every neighbour of a joined node in every run. */
  lemma RunFlags(c: Config, run: seq<Sys>, i: nat, v: nat, k: nat)
    requires IsRun(c, run) && ConfigOk(c) && c.nbrs[c.root] != [] && i < |run| && v < c.n && k < |c.nbrs[v]|
    ensures |run[i].nodes| == |run[i].hist| == c.n && c.nbrs[v][k] < c.n
    ensures J(c, run[i], v) ==>
              && k < |run[i].nodes[v].nbrs|
              && var u, flag := c.nbrs[v][k], run[i].nodes[v].nbrs[k].flag;
              && (flag == 1 <==> v != c.root && u == Par(run[i], v))
              && (flag == -1 <==> Heard(c, run[i], KSet, u, v) && if v == c.root then c.ts > 0 else u != Par(run[i], v) && !(A(run[i], v) <= A(run[i], u)))
              && (flag == 1 || flag == -1 || flag == 0)
  {
    RunInv(c, run, i);
    assert TableOk(c, v);
    if J(c, run[i], v) {
      FlagsExact(c, run[i], v, k);
    }
  }

  /** The closed form of every Share in every run, and when it is exact. */
  lemma RunShares(c: Config, run: seq<Sys>, i: nat, u: nat)
    requires IsRun(c, run) && ConfigOk(c) && c.nbrs[c.root] != [] && i < |run| && u < c.n
    ensures |run[i].nodes| == |run[i].hist| == c.n
    ensures HasShared(c, run[i], u) ==>
              && Extra(run[i], u) == ToInt16(SubtreeSurplus(c, run[i], u))
              && (Extra(run[i], u) == SubtreeSurplus(c, run[i], u) <==> -32768 <= SubtreeSurplus(c, run[i], u) <= 32767)
              && (|Subtree(c, run[i], u)| <= 327 ==>
                   Extra(run[i], u) == SubtreeSurplus(c, run[i], u) && ToInt16(-Extra(run[i], u)) == -Extra(run[i], u))
  {
    RunTotal(c, run, i);
    if HasShared(c, run[i], u) {
      ClosedForm(c, run[i], u);
      ClosedFormExact(c, run[i], u);
      if |Subtree(c, run[i], u)| <= 327 {
        SmallSubtreeIsExact(c, run[i], u);
      }
    }
  }

  /** A root with the children `a` and `b` that hears the Share of `a` twice and that of `b` not at all. */
  function TwiceFrom(n: Node, a: LinkId, b: LinkId, loadA: int, loadB: int, share: int): Node
  {
    var n1 := OnLoad(n, a, loadA).node;
    var n2 := OnShare(n1, a, share).node;
    var n3 := OnShare(n2, a, share).node;
    OnLoad(n3, b, loadB).node
  }

  /** A root between its children `a` and `b`: what it awaits and holds. */
  ghost predicate Hub(n: Node, a: LinkId, b: LinkId, loads: nat, shares: nat, load: int)
  {
    && n.isRoot && !n.edge && a != b && |n.nbrs| == 2
    && n.nbrs[0].addr == a && n.nbrs[0].flag == 0 && n.nbrs[1].addr == b && n.nbrs[1].flag == 0
    && n.hijosLoad == loads && n.hijosShare == shares && n.nodeList != [] && HeadLoad(n) == load
    && (n.hasConverged <==> loads == 0 && shares == 0)
  }

  lemma HubHearsLoad(n: Node, a: LinkId, b: LinkId, from: LinkId, value: int)
    requires n.hijosLoad > 0 && Hub(n, a, b, n.hijosLoad, n.hijosShare, HeadLoad(n)) && (from == a || from == b)
    ensures Hub(OnLoad(n, from, value).node, a, b, n.hijosLoad - 1, n.hijosShare, HeadLoad(n))
  {
    var i := if from == a then 0 else 1;
    assert IndexOf(n.nbrs, from) == i;
    assert StoreLoad(n, i, value).nbrs == n.nbrs[i := n.nbrs[i].(load := value)];
  }

  lemma HubHearsShare(n: Node, a: LinkId, b: LinkId, from: LinkId, value: int)
    requires n.hijosShare > 0 && Hub(n, a, b, n.hijosLoad, n.hijosShare, HeadLoad(n)) && (from == a || from == b)
    ensures Hub(OnShare(n, from, value).node, a, b, n.hijosLoad, n.hijosShare - 1, HeadLoad(n) + value)
  {
    var i := if from == a then 0 else 1;
    assert IndexOf(n.nbrs, from) == i;
    assert AddShare(n, value).nbrs == n.nbrs;
  }

  /**
   * Termination detection rests on messages not being duplicated: a Share delivered twice makes
   * the root converge without the Share of its other child, and counts double.
   */
  lemma DuplicateBreaksDetection(n: Node, p: Place, draw: int, a: LinkId, b: LinkId, loadA: int, loadB: int, share: int)
    requires RootReady(n, p) && p.g == [a, b] && a != b
    ensures var open := OnRootTimer(n, draw).node;
            && !open.hasConverged
            && TwiceFrom(open, a, b, loadA, loadB, share).hasConverged
            && HeadLoad(TwiceFrom(open, a, b, loadA, loadB, share)) == HeadLoad(open) + 2 * share
  {
    RootOpens(n, draw, p);
    var m := OnRootTimer(n, draw).node;
    var n1 := OnLoad(m, a, loadA).node;
    var n2 := OnShare(n1, a, share).node;
    HubHearsLoad(m, a, b, a, loadA);
    HubHearsShare(n1, a, b, a, share);
    HubHearsShare(n2, a, b, a, share);
    HubHearsLoad(OnShare(n2, a, share).node, a, b, b, loadB);
  }

  // ---- from boot to the first round ----

  ghost predicate JustBooted(n: Node, v: nat, root: nat)
  {
    && n.self == v && (n.isRoot <==> v == root) && n.maxHlmac == 1 && n.nbrs == [] && n.table == []
    && n.lastTimestamp == 0 && n.rootTimestamp == -1 && !n.edge
  }

  /** `v` heard from exactly the nodes that heard from it. */
  ghost predicate Exchanged(n: nat, packets: seq<seq<EmptyPacket>>)
  {
    && |packets| == n
    && (forall v, u :: 0 <= v < n && u in Senders(packets[v]) ==> u < n && u != v)
    && forall v, u :: 0 <= v < n && 0 <= u < n ==> (u in Senders(packets[v]) <==> v in Senders(packets[u]))
  }

  /** Booted nodes after empty packets, with the neighbours in the order of first hearing. */
  ghost predicate Discovered(c: Config, boots: seq<Node>, macs: seq<Wire.Bytes>, packets: seq<seq<EmptyPacket>>, nodes: seq<Node>)
  {
    && c.root < c.n == |c.nbrs| == |boots| == |macs| == |nodes| && c.ts == 0 && Exchanged(c.n, packets)
    && forall v :: 0 <= v < c.n ==>
         && JustBooted(boots[v], v, c.root) && nodes[v] == AfterPackets(boots[v], macs[v], packets[v])
         && c.nbrs[v] == FirstHeard(Senders(packets[v])) && |c.nbrs[v]| <= if v == c.root then 254 else 255
  }

  lemma EntriesListed(g: seq<LinkId>)
    requires |g| <= 255
    ensures Cut(g) == g && Listed(Entries(g), g)
  {
  }

  lemma DiscoveredFits(c: Config, packets: seq<seq<EmptyPacket>>, v: nat)
    requires c.n == |c.nbrs| && v < c.n && Exchanged(c.n, packets) && c.nbrs[v] == FirstHeard(Senders(packets[v]))
    requires |c.nbrs[v]| <= if v == c.root then 254 else 255
    ensures TableOk(c, v)
  {
    forall i | 0 <= i < |c.nbrs[v]|
      ensures c.nbrs[v][i] < c.n && c.nbrs[v][i] != v
    {
      assert c.nbrs[v][i] in Senders(packets[v]);
    }
  }

  lemma DiscoveredTable(c: Config, boots: seq<Node>, macs: seq<Wire.Bytes>, packets: seq<seq<EmptyPacket>>, nodes: seq<Node>, v: nat)
    requires Discovered(c, boots, macs, packets, nodes) && v < c.n
    ensures TableOk(c, v) && nodes[v] == boots[v].(nbrs := Entries(c.nbrs[v])) && Listed(nodes[v].nbrs, c.nbrs[v])
    ensures forall a :: a in c.nbrs[v] <==> a in Senders(packets[v])
  {
    PacketsDiscover(boots[v], macs[v], packets[v]);
    EntriesListed(c.nbrs[v]);
    DiscoveredFits(c, packets, v);
  }

  /**
   * After any symmetric exchange of empty packets with at most 255 neighbours each, and 254 at the
   * root, the first round can start, with no flag set and no flow recorded.
   */
  lemma HellosMakeReady(c: Config, boots: seq<Node>, macs: seq<Wire.Bytes>, packets: seq<seq<EmptyPacket>>, nodes: seq<Node>)
    requires Discovered(c, boots, macs, packets, nodes)
    ensures ReadyFor(c, nodes)
    ensures forall v, i :: 0 <= v < c.n && 0 <= i < |nodes[v].nbrs| ==> nodes[v].nbrs[i].flag == nodes[v].nbrs[i].inOut == 0
  {
    forall v | 0 <= v < c.n
      ensures TableOk(c, v) && nodes[v] == boots[v].(nbrs := Entries(c.nbrs[v])) && Listed(nodes[v].nbrs, c.nbrs[v])
      ensures forall a :: a in c.nbrs[v] <==> a in Senders(packets[v])
    {
      DiscoveredTable(c, boots, macs, packets, nodes, v);
    }
  }

  lemma BeginFromNoFlow(c: Config, nodes: seq<Node>, draw: int, run: seq<Sys>)
    requires ReadyFor(c, nodes) && run != [] && run[0] == Begin(c, nodes, draw)
    requires forall v, i :: 0 <= v < c.n && 0 <= i < |nodes[v].nbrs| ==> nodes[v].nbrs[i].inOut == 0
    ensures FromNoFlow(run)
  {
    forall v, i | 0 <= v < |run[0].nodes| && 0 <= i < |run[0].nodes[v].nbrs|
      ensures run[0].nodes[v].nbrs[i].inOut == 0
    {
      BeginKeepsFlows(c, nodes, draw, v);
      assert InOuts(run[0].nodes[v].nbrs)[i] == InOuts(nodes[v].nbrs)[i];
    }
  }

  /** So the first round begins without flows: FirstFlowBalance applies to it. */
  lemma FirstRoundHasNoFlow(c: Config, boots: seq<Node>, macs: seq<Wire.Bytes>, packets: seq<seq<EmptyPacket>>, nodes: seq<Node>, draw: int, run: seq<Sys>)
    requires Discovered(c, boots, macs, packets, nodes) && ReadyFor(c, nodes) && run != [] && run[0] == Begin(c, nodes, draw)
    ensures FromNoFlow(run)
  {
    HellosMakeReady(c, boots, macs, packets, nodes);
    BeginFromNoFlow(c, nodes, draw, run);
  }
}
