/** Rounds one after the other: how recorded flows grow stale. */
module RoundChain {
  import opened Types
  import opened Sums
  import opened NodeModel
  import opened Round
  import opened RoundInv
  import opened RoundTree
  import opened RoundSafety
  import opened RoundCount
  import opened RoundLoads
  import opened RoundFlow
  import opened RoundTheorems
  import opened RoundRuns

  /** The network in the `k`-th round of a chain. */
  function RoundAt(c: Config, k: nat): Config { c.(ts := c.ts + k) }

  function Last(run: seq<Sys>): Sys
    requires run != []
  {
    run[|run| - 1]
  }

  /** Each round begins with the nodes as the one before left them, on an empty network. */
  ghost predicate IsChain(c: Config, runs: seq<seq<Sys>>)
  {
    && runs != [] && ConfigOk(c)
    && (forall k :: 0 <= k < |runs| ==> IsRun(RoundAt(c, k), runs[k]))
    && forall k :: 0 < k < |runs| ==> Follows(RoundAt(c, k), runs[k - 1], runs[k])
  }

  ghost predicate Follows(c: Config, before: seq<Sys>, run: seq<Sys>)
  {
    before != [] && run != [] && exists draw: int :: Opens(c, Last(before).nodes, draw, run[0])
  }

  ghost predicate Opens(c: Config, nodes: seq<Node>, draw: int, s: Sys)
  {
    ReadyFor(c, nodes) && 0 <= draw < 200 && s == Begin(c, nodes, draw)
  }

  lemma RoundAtOk(c: Config, k: nat)
    requires ConfigOk(c)
    ensures ConfigOk(RoundAt(c, k)) && (Connected(c) ==> Connected(RoundAt(c, k)))
  {
    forall v | 0 <= v < c.n
      ensures TableOk(RoundAt(c, k), v)
    {
      assert TableOk(c, v);
    }
    if Connected(c) {
      forall v | 0 <= v < c.n
        ensures Reachable(RoundAt(c, k), v)
      {
        StillReachable(c, k, v);
      }
    }
  }

  lemma StillReachable(c: Config, k: nat, v: nat)
    requires ConfigOk(c) && ConfigOk(RoundAt(c, k)) && Reachable(c, v)
    ensures Reachable(RoundAt(c, k), v)
  {
    var p :| PathTo(c, p, v);
    forall i | 0 < i < |p|
      ensures Hop(RoundAt(c, k), p, i)
    {
      assert Hop(c, p, i);
    }
    assert PathTo(RoundAt(c, k), p, v);
  }

  /** After any round another one can be run without losses, with whatever loads are drawn. */
  lemma NextRound(c: Config, run: seq<Sys>, draw: int, draws: seq<int>) returns (next: seq<Sys>)
    requires IsRun(c, run) && ConfigOk(c) && Connected(c) && c.n >= 2 && 0 <= draw < 200 && Draws(c, draws)
    ensures IsRun(RoundAt(c, 1), next) && Follows(RoundAt(c, 1), run, next) && EndsWell(RoundAt(c, 1), Last(next), draws)
    ensures next[0] == Begin(RoundAt(c, 1), Last(run).nodes, draw)
  {
    RootHasNeighbour(c);
    RunInv(c, run, |run| - 1);
    RoundsChain(c, Last(run));
    RoundAtOk(c, 1);
    next := LossFreeRun(RoundAt(c, 1), Last(run).nodes, draw, draws);
    assert Opens(RoundAt(c, 1), Last(run).nodes, draw, next[0]);
  }

  // ---- what a parent has recorded after many rounds ----

  function FirstNonZero(xs: seq<int>): int
  {
    if xs == [] then 0
    else
      var r := FirstNonZero(xs[..|xs| - 1]);
      if r != 0 then r else xs[|xs| - 1]
  }

  /** The Shares of `v`, round by round. */
  function SharesOf(runs: seq<seq<Sys>>, v: nat): (r: seq<int>)
    ensures |r| == |runs| && forall k :: 0 <= k < |runs| ==> r[k] == ShareAfter(runs[k], v)
  {
    seq(|runs|, k requires 0 <= k < |runs| => ShareAfter(runs[k], v))
  }

  function ShareAfter(run: seq<Sys>, v: nat): int
  {
    if run != [] && v < |Last(run).nodes| then Extra(Last(run), v) else 0
  }

  /** The entries of `u` for `v` and of `v` for `u`. */
  ghost predicate Ends(c: Config, u: nat, j: nat, v: nat, i: nat)
  {
    && u < c.n == |c.nbrs| && v < c.n
    && j < |c.nbrs[u]| && c.nbrs[u][j] == v && i < |c.nbrs[v]| && c.nbrs[v][i] == u
  }

  /** The root has converged, and `v` is the child of `u`. */
  ghost predicate EndsUnder(c: Config, run: seq<Sys>, u: nat, v: nat)
  {
    && run != [] && |Last(run).nodes| == |Last(run).hist| == c.n && c.root < c.n && v < c.n && u < c.n
    && Last(run).nodes[c.root].hasConverged && v != c.root && Par(Last(run), v) == u
  }

  ghost predicate AllUnder(c: Config, runs: seq<seq<Sys>>, u: nat, v: nat)
  {
    forall k :: 0 <= k < |runs| ==> EndsUnder(c, runs[k], u, v)
  }

  /** What one round records at both ends of the edge between a node and its parent. */
  lemma EdgeAfterRound(c: Config, run: seq<Sys>, u: nat, j: nat, v: nat, i: nat)
    requires IsRun(c, run) && ConfigOk(c) && Connected(c) && EndsUnder(c, run, u, v) && Ends(c, u, j, v, i)
    ensures u < |Flows(run[0])| && j < |Flows(run[0])[u]|
    ensures i < |Last(run).nodes[v].nbrs| && j < |Last(run).nodes[u].nbrs|
    ensures var before := Flows(run[0])[u][j];
            && Last(run).nodes[v].nbrs[i].inOut == ToInt16(-Extra(Last(run), v))
            && Last(run).nodes[u].nbrs[j].inOut == if before != 0 then before else Extra(Last(run), v)
    ensures -32768 <= Extra(Last(run), v) <= 32767
  {
    FlowBalance(c, run, |run| - 1, v);
    assert TreeEdge(c, Last(run), v, i, j);
    RootHasNeighbour(c);
    RunInv(c, run, |run| - 1);
    ConvergedIsFinished(c, Last(run));
    ShareIsShort(c, Last(run), v);
  }

  /** What a round begins with is what the one before ended with. */
  lemma FlowHandedOn(c: Config, before: seq<Sys>, run: seq<Sys>, u: nat, j: nat)
    requires Follows(c, before, run) && u < c.n && u < |Last(before).nodes| && j < |Last(before).nodes[u].nbrs|
    ensures u < |Flows(run[0])| && j < |Flows(run[0])[u]| && Flows(run[0])[u][j] == Last(before).nodes[u].nbrs[j].inOut
  {
    var draw: int :| Opens(c, Last(before).nodes, draw, run[0]);
    BeginKeepsFlows(c, Last(before).nodes, draw, u);
  }

  /**
   * A parent's record stays that of the first Share that was not 0. In a chain of converged rounds
   * after booting, in which `v` is the child of `u` throughout, `u` ends up with that Share recorded
   * for `v`, while `v` has recorded the negation of its last one. The two are opposite if and only
   * if the last Share is that first one again and is not -32768.
   */
  lemma FirstShareStays(c: Config, runs: seq<seq<Sys>>, u: nat, j: nat, v: nat, i: nat)
    requires IsChain(c, runs) && Connected(c) && FromNoFlow(runs[0])
    requires AllUnder(c, runs, u, v) && Ends(c, u, j, v, i)
    ensures EndsUnder(c, runs[|runs| - 1], u, v)
    ensures var s, first := Last(runs[|runs| - 1]), FirstNonZero(SharesOf(runs, v));
            && i < |s.nodes[v].nbrs| && j < |s.nodes[u].nbrs|
            && s.nodes[u].nbrs[j].inOut == first && s.nodes[v].nbrs[i].inOut == ToInt16(-Extra(s, v))
            && (s.nodes[v].nbrs[i].inOut == -s.nodes[u].nbrs[j].inOut <==> Extra(s, v) == first && first != -32768)
  {
    var l := |runs| - 1;
    RecordIsFirst(c, runs, u, j, v, i);
    RoundAtOk(c, l);
    EdgeAfterRound(RoundAt(c, l), runs[l], u, j, v, i);
    FirstIsShort(c, runs, u, j, v, i);
    var share := Extra(Last(runs[l]), v);
    assert ToInt16(-share) == if share == -32768 then -32768 else -share;
  }

  lemma FirstRecord(c: Config, run: seq<Sys>, u: nat, j: nat, v: nat, i: nat)
    requires IsRun(c, run) && ConfigOk(c) && Connected(c) && FromNoFlow(run) && EndsUnder(c, run, u, v) && Ends(c, u, j, v, i)
    ensures j < |Last(run).nodes[u].nbrs| && Last(run).nodes[u].nbrs[j].inOut == ShareAfter(run, v)
  {
    EdgeAfterRound(c, run, u, j, v, i);
  }

  lemma NextRecord(c: Config, before: seq<Sys>, run: seq<Sys>, u: nat, j: nat, v: nat, i: nat)
    requires IsRun(c, run) && ConfigOk(c) && Connected(c) && EndsUnder(c, run, u, v) && Ends(c, u, j, v, i)
    requires Follows(c, before, run) && u < |Last(before).nodes| && j < |Last(before).nodes[u].nbrs|
    ensures j < |Last(run).nodes[u].nbrs|
    ensures var was := Last(before).nodes[u].nbrs[j].inOut;
            Last(run).nodes[u].nbrs[j].inOut == if was != 0 then was else ShareAfter(run, v)
  {
    EdgeAfterRound(c, run, u, j, v, i);
    FlowHandedOn(c, before, run, u, j);
  }

  /** What `u` has recorded for `v` when the `k`-th round is over. */
  function RecordedIn(runs: seq<seq<Sys>>, u: nat, j: nat, k: nat): int
    requires k < |runs|
  {
    if runs[k] != [] && u < |Last(runs[k]).nodes| && j < |Last(runs[k]).nodes[u].nbrs| then Last(runs[k]).nodes[u].nbrs[j].inOut else 0
  }

  lemma RecordStep(c: Config, runs: seq<seq<Sys>>, u: nat, j: nat, v: nat, i: nat, k: nat)
    requires IsChain(c, runs) && Connected(c) && FromNoFlow(runs[0]) && k < |runs|
    requires AllUnder(c, runs, u, v) && Ends(c, u, j, v, i)
    ensures var was := if k > 0 then RecordedIn(runs, u, j, k - 1) else 0;
            RecordedIn(runs, u, j, k) == if was != 0 then was else ShareAfter(runs[k], v)
  {
    RoundAtOk(c, k);
    if k > 0 {
      RoundAtOk(c, k - 1);
      EdgeAfterRound(RoundAt(c, k - 1), runs[k - 1], u, j, v, i);
      NextRecord(RoundAt(c, k), runs[k - 1], runs[k], u, j, v, i);
    } else {
      FirstRecord(RoundAt(c, 0), runs[0], u, j, v, i);
    }
  }

  /** A record that is not 0 is kept; otherwise the next value is recorded. */
  ghost predicate KeptAt(xs: seq<int>, kept: seq<int>, k: nat)
    requires k < |xs| == |kept|
  {
    kept[k] == if k > 0 && kept[k - 1] != 0 then kept[k - 1] else xs[k]
  }

  /** ... so it is the first value that is not 0. */
  lemma {:induction false} KeptIsFirst(xs: seq<int>, kept: seq<int>)
    requires |xs| == |kept| > 0 && forall k :: 0 <= k < |xs| ==> KeptAt(xs, kept, k)
    ensures kept[|xs| - 1] == FirstNonZero(xs)
  {
    var l := |xs| - 1;
    assert KeptAt(xs, kept, l);
    if l > 0 {
      forall k | 0 <= k < l
        ensures KeptAt(xs[..l], kept[..l], k)
      {
        assert KeptAt(xs, kept, k);
      }
      KeptIsFirst(xs[..l], kept[..l]);
    }
  }

  function Records(runs: seq<seq<Sys>>, u: nat, j: nat): (r: seq<int>)
    ensures |r| == |runs| && forall k :: 0 <= k < |runs| ==> r[k] == RecordedIn(runs, u, j, k)
  {
    seq(|runs|, k requires 0 <= k < |runs| => RecordedIn(runs, u, j, k))
  }

  lemma RecordIsKept(c: Config, runs: seq<seq<Sys>>, u: nat, j: nat, v: nat, i: nat, k: nat)
    requires IsChain(c, runs) && Connected(c) && FromNoFlow(runs[0]) && k < |runs|
    requires AllUnder(c, runs, u, v) && Ends(c, u, j, v, i)
    ensures KeptAt(SharesOf(runs, v), Records(runs, u, j), k)
  {
    RecordStep(c, runs, u, j, v, i, k);
  }

  lemma RecordIsFirst(c: Config, runs: seq<seq<Sys>>, u: nat, j: nat, v: nat, i: nat)
    requires IsChain(c, runs) && Connected(c) && FromNoFlow(runs[0])
    requires AllUnder(c, runs, u, v) && Ends(c, u, j, v, i)
    ensures RecordedIn(runs, u, j, |runs| - 1) == FirstNonZero(SharesOf(runs, v))
  {
    forall k | 0 <= k < |runs|
      ensures KeptAt(SharesOf(runs, v), Records(runs, u, j), k)
    {
      RecordIsKept(c, runs, u, j, v, i, k);
    }
    KeptIsFirst(SharesOf(runs, v), Records(runs, u, j));
  }

  /** The first Share that is not 0 fits a `short`, as they all do. */
  lemma {:induction false} FirstIsOne(xs: seq<int>)
    requires forall k :: 0 <= k < |xs| ==> -32768 <= xs[k] <= 32767
    ensures -32768 <= FirstNonZero(xs) <= 32767
  {
    if xs != [] {
      FirstIsOne(xs[..|xs| - 1]);
    }
  }

  lemma FirstIsShort(c: Config, runs: seq<seq<Sys>>, u: nat, j: nat, v: nat, i: nat)
    requires IsChain(c, runs) && Connected(c) && AllUnder(c, runs, u, v) && Ends(c, u, j, v, i)
    ensures -32768 <= FirstNonZero(SharesOf(runs, v)) <= 32767
  {
    forall k | 0 <= k < |runs|
      ensures -32768 <= SharesOf(runs, v)[k] <= 32767
    {
      RoundAtOk(c, k);
      EdgeAfterRound(RoundAt(c, k), runs[k], u, j, v, i);
    }
    FirstIsOne(SharesOf(runs, v));
  }

  // ---- what the root holds after many rounds ----

  /** What one converged round brings the root: everyone else's surplus, and what its children's Shares wrapped. */
  function Gain(c: Config, run: seq<Sys>): int
  {
    if run != [] && |Last(run).nodes| == |Last(run).hist| == c.n then
      Sum(Surplus(c, Last(run), Common(c))) + Sum(RootWraps(c, Last(run)))
    else 0
  }

  function Gains(c: Config, runs: seq<seq<Sys>>): (r: seq<int>)
    ensures |r| == |runs| && forall k :: 0 <= k < |runs| ==> r[k] == Gain(RoundAt(c, k), runs[k])
  {
    seq(|runs|, k requires 0 <= k < |runs| => Gain(RoundAt(c, k), runs[k]))
  }

  ghost predicate Converged(c: Config, run: seq<Sys>)
  {
    run != [] && c.root < |Last(run).nodes| == |Last(run).hist| == c.n && Last(run).nodes[c.root].hasConverged
  }

  function RootHolds(c: Config, run: seq<Sys>): int
  {
    if run != [] && c.root < |Last(run).nodes| then HeadLoad(Last(run).nodes[c.root]) else 0
  }

  /** One round at the root. */
  lemma RootGainsIn(c: Config, run: seq<Sys>, nodes: seq<Node>, draw: int)
    requires IsRun(c, run) && ConfigOk(c) && Connected(c) && c.n >= 2 && Converged(c, run)
    requires ReadyFor(c, nodes) && run[0] == Begin(c, nodes, draw)
    ensures RootHolds(c, run) == Gain(c, run) + if nodes[c.root].nodeList == [] then draw else HeadLoad(nodes[c.root])
  {
    var l := |run| - 1;
    RootHasNeighbour(c);
    TerminationDetection(c, run, l);
    RootStarts(c, nodes, draw);
    BeginInv(c, nodes, draw);
    RootStartStays(c, run, l);
  }

  lemma RootHasList(c: Config, run: seq<Sys>)
    requires IsRun(c, run) && ConfigOk(c) && c.nbrs[c.root] != []
    ensures c.root < |Last(run).nodes| && Last(run).nodes[c.root].nodeList != []
  {
    RunInv(c, run, |run| - 1);
    RootJoined(c, Last(run));
    assert NodeInv(c, Last(run), c.root);
  }

  lemma NextGain(c: Config, before: seq<Sys>, run: seq<Sys>, was: Config)
    requires IsRun(was, before) && ConfigOk(was) && was.nbrs[was.root] != [] && was.root == c.root
    requires IsRun(c, run) && ConfigOk(c) && Connected(c) && c.n >= 2 && Converged(c, run) && Follows(c, before, run)
    ensures RootHolds(c, run) == Gain(c, run) + RootHolds(was, before)
  {
    RootHasList(was, before);
    var draw: int :| Opens(c, Last(before).nodes, draw, run[0]);
    RootGainsIn(c, run, Last(before).nodes, draw);
  }

  ghost predicate AllConverged(c: Config, runs: seq<seq<Sys>>)
  {
    forall k :: 0 <= k < |runs| ==> Converged(c, runs[k])
  }

  lemma GainStep(c: Config, runs: seq<seq<Sys>>, k: nat)
    requires IsChain(c, runs) && Connected(c) && c.n >= 2 && AllConverged(c, runs) && 0 < k < |runs|
    ensures RootHolds(c, runs[k]) == Gains(c, runs)[k] + RootHolds(c, runs[k - 1])
  {
    RoundAtOk(c, k);
    RoundAtOk(c, k - 1);
    RootHasNeighbour(c);
    assert Converged(c, runs[k]);
    NextGain(RoundAt(c, k), runs[k - 1], runs[k], RoundAt(c, k - 1));
  }

  ghost predicate AddsGain(gains: seq<int>, held: seq<int>, start: int, k: nat)
    requires k < |gains| == |held|
  {
    held[k] == gains[k] + if k > 0 then held[k - 1] else start
  }

  lemma {:induction false} SumOfSteps(gains: seq<int>, held: seq<int>, start: int)
    requires |gains| == |held| > 0 && forall k :: 0 <= k < |gains| ==> AddsGain(gains, held, start, k)
    ensures held[|held| - 1] == start + Sum(gains)
  {
    var l := |gains| - 1;
    assert AddsGain(gains, held, start, l);
    if l > 0 {
      forall k | 0 <= k < l
        ensures AddsGain(gains[..l], held[..l], start, k)
      {
        assert AddsGain(gains, held, start, k);
      }
      SumOfSteps(gains[..l], held[..l], start);
    } else {
      assert gains[..l] == [];
    }
  }

  function HeldAfter(c: Config, runs: seq<seq<Sys>>): (r: seq<int>)
    ensures |r| == |runs| && forall k :: 0 <= k < |runs| ==> r[k] == RootHolds(c, runs[k])
  {
    seq(|runs|, k requires 0 <= k < |runs| => RootHolds(c, runs[k]))
  }

  lemma FirstGain(c: Config, runs: seq<seq<Sys>>, nodes: seq<Node>, draw: int)
    requires IsChain(c, runs) && Connected(c) && c.n >= 2 && AllConverged(c, runs)
    requires ReadyFor(c, nodes) && nodes[c.root].nodeList == [] && runs[0] != [] && runs[0][0] == Begin(c, nodes, draw)
    ensures RootHolds(c, runs[0]) == draw + Gains(c, runs)[0]
  {
    assert RoundAt(c, 0) == c && Converged(c, runs[0]);
    RootGainsIn(c, runs[0], nodes, draw);
  }

  /** The chain starts at a root that has no entry yet and draws `draw`. */
  ghost predicate StartsFresh(c: Config, runs: seq<seq<Sys>>, nodes: seq<Node>, draw: int)
  {
    && IsChain(c, runs) && Connected(c) && c.n >= 2 && AllConverged(c, runs)
    && ReadyFor(c, nodes) && nodes[c.root].nodeList == [] && runs[0] != [] && runs[0][0] == Begin(c, nodes, draw)
  }

  lemma GainAt(c: Config, runs: seq<seq<Sys>>, nodes: seq<Node>, draw: int, k: nat)
    requires StartsFresh(c, runs, nodes, draw) && k < |runs|
    ensures AddsGain(Gains(c, runs), HeldAfter(c, runs), draw, k)
  {
    if k > 0 {
      GainStep(c, runs, k);
    } else {
      FirstGain(c, runs, nodes, draw);
    }
  }

  /**
   * The root's entry is not cleared between rounds: over a chain of converged rounds it adds everyone else's
   * surplus of each round to the load drawn in the first one, and what its children's Shares wrapped.
   */
  lemma RootAccumulates(c: Config, runs: seq<seq<Sys>>, nodes: seq<Node>, draw: int)
    requires StartsFresh(c, runs, nodes, draw)
    ensures runs != [] && RootHolds(c, runs[|runs| - 1]) == draw + Sum(Gains(c, runs))
  {
    var gains, held := Gains(c, runs), HeldAfter(c, runs);
    forall k | 0 <= k < |gains|
      ensures AddsGain(gains, held, draw, k)
    {
      GainAt(c, runs, nodes, draw, k);
    }
    SumOfSteps(gains, held, draw);
  }

  // ---- the smallest example ----

  /** In a network of two nodes the Share is what the common node drew beyond 100. */
  lemma TwoNodeShare(c: Config, s: Sys, draws: seq<int>)
    requires Inv(c, s) && TotalInv(c, s) && EndsWell(c, s, draws) && c.n == 2 && c.root == 0
    requires |c.nbrs[0]| == 1 && c.nbrs[0][0] == 1 && 0 <= draws[1] < 200
    ensures Extra(s, 1) == draws[1] - 100
    ensures EndsUnder(c, [s], 0, 1)
  {
    WholeSubtree(c, s);
    assert HasShared(c, s, 1) && 1 in Common(c);
    SumSingle(Surplus(c, s, Subtree(c, s, 1)), 1);
    ClosedForm(c, s, 1);
    ParentFacts(c, s, 1);
  }

  lemma TwoNodeRound(c: Config, run: seq<Sys>, draws: seq<int>)
    requires IsRun(c, run) && c.n == 2 && c.root == 0 && c.nbrs == [[1], [0]] && EndsWell(c, Last(run), draws) && 0 <= draws[1] < 200
    ensures Extra(Last(run), 1) == draws[1] - 100 && EndsUnder(c, run, 0, 1)
  {
    RunTotal(c, run, |run| - 1);
    TwoNodeShare(c, Last(run), draws);
  }

  /** Two nodes, the root first. */
  ghost predicate TwoNodeNet(c: Config)
  {
    ConfigOk(c) && Connected(c) && c.n == 2 && c.root == 0 && c.nbrs == [[1], [0]]
  }

  lemma TwoNodes()
    ensures TwoNodeNet(Tree(2)) && ReadyFor(Tree(2), Boots(Tree(2)))
  {
    TreeOk(2);
    TreeConnected(2);
    TreeReady(2);
    TwoTables();
  }

  lemma TwoTables()
    ensures Tree(2).nbrs == [[1], [0]]
  {
    assert TreeNbrs(0, 2) == [1] && TreeNbrs(1, 2) == [0];
    assert Tree(2).nbrs == [TreeNbrs(0, 2), TreeNbrs(1, 2)];
  }

  lemma BootsHaveNoFlow(c: Config)
    requires ConfigOk(c)
    ensures forall v, i :: 0 <= v < c.n && 0 <= i < |Boots(c)[v].nbrs| ==> Boots(c)[v].nbrs[i].inOut == 0
  {
  }

  /** A round without losses in which the common node draws `draw`. */
  ghost predicate DrewInRound(c: Config, run: seq<Sys>, draw: int)
  {
    EndsUnder(c, run, 0, 1) && Quiet(c, Last(run)) && Extra(Last(run), 1) == draw - 100
  }

  lemma FirstOfTwoRounds() returns (c: Config, first: seq<Sys>)
    ensures TwoNodeNet(c) && IsRun(c, first) && FromNoFlow(first) && DrewInRound(c, first, 150)
  {
    c := Tree(2);
    TwoNodes();
    BootsHaveNoFlow(c);
    first := LossFreeRun(c, Boots(c), 0, [0, 150]);
    BeginFromNoFlow(c, Boots(c), 0, first);
    TwoNodeRound(c, first, [0, 150]);
  }

  lemma SecondOfTwoRounds(c: Config, first: seq<Sys>) returns (second: seq<Sys>)
    requires TwoNodeNet(c) && IsRun(c, first)
    ensures IsRun(RoundAt(c, 1), second) && Follows(RoundAt(c, 1), first, second)
    ensures DrewInRound(RoundAt(c, 1), second, 120) && EndsUnder(c, second, 0, 1)
  {
    second := NextRound(c, first, 0, [0, 120]);
    TwoNodeRound(RoundAt(c, 1), second, [0, 120]);
  }

  /**
   * Two booted nodes and two rounds without losses are enough. The common node draws 150, then
   * 120: afterwards the root has a flow of 50 recorded and the common node one of -20.
   */
  lemma RecordGrowsStale() returns (c: Config, runs: seq<seq<Sys>>)
    ensures TwoNodeNet(c) && IsChain(c, runs) && |runs| == 2 && FromNoFlow(runs[0])
    ensures DrewInRound(c, runs[0], 150) && DrewInRound(RoundAt(c, 1), runs[1], 120)
    ensures Recorded(Last(runs[1]), 20, 50, -20)
  {
    var first, second;
    c, first := FirstOfTwoRounds();
    second := SecondOfTwoRounds(c, first);
    runs := [first, second];
    PairIsChain(c, first, second);
    StaleAfterTwo(c, first, second);
  }

  /** Node 1 has sent `share`; the root has recorded `down`, node 1 `up`. */
  ghost predicate Recorded(s: Sys, share: int, down: int, up: int)
  {
    && |s.nodes| == 2 && |s.nodes[0].nbrs| > 0 && |s.nodes[1].nbrs| > 0
    && Extra(s, 1) == share && s.nodes[0].nbrs[0].inOut == down && s.nodes[1].nbrs[0].inOut == up
  }

  lemma PairIsChain(c: Config, first: seq<Sys>, second: seq<Sys>)
    requires ConfigOk(c) && IsRun(c, first) && IsRun(RoundAt(c, 1), second) && Follows(RoundAt(c, 1), first, second)
    ensures IsChain(c, [first, second])
  {
    assert RoundAt(c, 0) == c;
  }

  lemma PairShares(c: Config, first: seq<Sys>, second: seq<Sys>)
    requires EndsUnder(c, first, 0, 1) && EndsUnder(c, second, 0, 1)
    ensures AllUnder(c, [first, second], 0, 1)
    ensures SharesOf([first, second], 1) == [Extra(Last(first), 1), Extra(Last(second), 1)]
  {
  }

  lemma FirstOfTwo(a: int, b: int)
    ensures FirstNonZero([a, b]) == if a != 0 then a else b
  {
    assert [a, b][..1] == [a];
    assert FirstNonZero([a]) == a;
  }

  lemma StaleAfterTwo(c: Config, first: seq<Sys>, second: seq<Sys>)
    requires TwoNodeNet(c) && IsChain(c, [first, second]) && FromNoFlow(first)
    requires EndsUnder(c, first, 0, 1) && EndsUnder(c, second, 0, 1) && Extra(Last(first), 1) == 50 && Extra(Last(second), 1) == 20
    ensures Recorded(Last(second), 20, 50, -20)
  {
    var runs := [first, second];
    assert Ends(c, 0, 0, 1, 0);
    PairShares(c, first, second);
    FirstShareStays(c, runs, 0, 0, 1, 0);
    FirstOfTwo(50, 20);
  }
}
