/** Runs that exist: without losses every round comes to its end, and a large network overflows. */
module RoundRuns {
  import opened Types
  import opened NodeModel
  import opened RoundLocal
  import opened Round
  import opened RoundInv
  import opened RoundTree
  import opened RoundSafety
  import opened RoundCount
  import opened RoundLoads
  import opened Sums

  /** No message was lost so far. */
  ghost predicate NoneLost(c: Config, s: Sys)
  {
    forall k, u, v, i :: 0 <= u < c.n && 0 <= v < c.n && 0 <= i < |s.net(Chan(k, u, v))| ==>
      s.net(Chan(k, u, v))[i].status != Lost
  }

  /** Every joined common node drew the load chosen for it. */
  ghost predicate Drew(c: Config, s: Sys, draws: seq<int>)
    requires |s.nodes| == |s.hist| == c.n == |draws|
  {
    forall v :: 0 <= v < c.n && v != c.root && J(c, s, v) ==> s.hist[v].start == draws[v]
  }

  ghost predicate Draws(c: Config, draws: seq<int>)
  {
    |draws| == c.n && forall v :: 0 <= v < c.n ==> 0 <= draws[v] < 200
  }

  /** Where no event is possible and nothing was lost, everything has been delivered. */
  lemma StuckIsQuiet(c: Config, s: Sys)
    requires NoneLost(c, s) && forall e :: !Enabled(c, s, e)
    ensures Quiet(c, s)
  {
    forall k, u, v, i | 0 <= u < c.n && 0 <= v < c.n && 0 <= i < |s.net(Chan(k, u, v))|
      ensures s.net(Chan(k, u, v))[i].status == Delivered
    {
      assert !Enabled(c, s, Deliver(Chan(k, u, v), i, 0));
    }
  }

  lemma DeliverLosesNothing(c: Config, s: Sys, ch: Chan, j: nat, draw: int)
    requires |s.nodes| == |s.hist| == c.n && NoneLost(c, s) && Enabled(c, s, Deliver(ch, j, draw))
    ensures NoneLost(c, Step(c, s, Deliver(ch, j, draw)))
  {
    var s' := Step(c, s, Deliver(ch, j, draw));
    var outs := React(s.nodes[ch.dst], ch.src, s.net(ch)[j].msg, draw).outs;
    var mid := Settle(s.net, ch, j, Delivered);
    forall k, u, v, i | 0 <= u < c.n && 0 <= v < c.n && 0 <= i < |s'.net(Chan(k, u, v))|
      ensures s'.net(Chan(k, u, v))[i].status != Lost
    {
      var at := Chan(k, u, v);
      assert |mid(at)| == |s.net(at)|;
      assert i < |s.net(at)| ==> s.net(at)[i].status != Lost;
    }
  }

  lemma DeliverDraws(c: Config, s: Sys, ch: Chan, j: nat, draws: seq<int>)
    requires Inv(c, s) && TotalInv(c, s) && Draws(c, draws) && Drew(c, s, draws)
    requires ch.dst < c.n && Enabled(c, s, Deliver(ch, j, draws[ch.dst]))
    ensures Drew(c, Step(c, s, Deliver(ch, j, draws[ch.dst])), draws)
  {
    var s', v := Step(c, s, Deliver(ch, j, draws[ch.dst])), ch.dst;
    UnderWay(c, s, ch, j);
    ReceiverJoined(c, s, ch, j);
    assert TotalOk(c, s, v);
    RecordTotal(s.nodes[v], s.hist[v], ch.src, s.net(ch)[j].msg, draws[v], c.ts, c.n);
    forall w | 0 <= w < c.n && w != c.root && J(c, s', w)
      ensures s'.hist[w].start == draws[w]
    {
      if w != v {
        assert s'.nodes[w] == s.nodes[w];
      }
    }
  }

  /** The last state of a run is one from which nothing was lost, with the loads chosen. */
  ghost predicate Lossless(c: Config, s: Sys, draws: seq<int>)
  {
    && |s.nodes| == |s.hist| == c.n == |draws|
    && NoneLost(c, s) && Drew(c, s, draws)
  }

  /** One more delivery, if any event is possible. */
  lemma DeliverNext(c: Config, s: Sys, draws: seq<int>, e: Event) returns (s': Sys)
    requires Inv(c, s) && TotalInv(c, s) && Draws(c, draws) && Lossless(c, s, draws) && Enabled(c, s, e)
    ensures IsStep(c, s, s') && Lossless(c, s', draws)
  {
    var d := Deliver(e.ch, e.j, draws[e.ch.dst]);
    assert Enabled(c, s, d);
    s' := Step(c, s, d);
    DeliverLosesNothing(c, s, e.ch, e.j, draws[e.ch.dst]);
    DeliverDraws(c, s, e.ch, e.j, draws);
  }

  lemma Continue(c: Config, run: seq<Sys>, draws: seq<int>, e: Event) returns (more: seq<Sys>)
    requires IsRun(c, run) && c.nbrs[c.root] != [] && Draws(c, draws)
    requires Lossless(c, run[|run| - 1], draws) && Enabled(c, run[|run| - 1], e)
    ensures IsRun(c, more) && |more| == |run| + 1 && more[0] == run[0] && Lossless(c, more[|more| - 1], draws)
    ensures |run| <= 2 * Edges(c) + c.n - 1
  {
    RunTotal(c, run, |run| - 1);
    var s' := DeliverNext(c, run[|run| - 1], draws, e);
    OneMore(c, run, s');
    more := run + [s'];
    RunLength(c, more);
  }

  /** A run without losses can go on until everything has been delivered. */
  lemma {:induction false} GoOn(c: Config, run: seq<Sys>, draws: seq<int>) returns (all: seq<Sys>)
    requires IsRun(c, run) && c.nbrs[c.root] != [] && Draws(c, draws)
    requires Lossless(c, run[|run| - 1], draws)
    ensures IsRun(c, all) && all[0] == run[0]
    ensures Lossless(c, all[|all| - 1], draws) && Quiet(c, all[|all| - 1])
    decreases 2 * Edges(c) + c.n - |run|
  {
    var s := run[|run| - 1];
    if e :| Enabled(c, s, e) {
      var more := Continue(c, run, draws, e);
      all := GoOn(c, more, draws);
    } else {
      StuckIsQuiet(c, s);
      all := run;
    }
  }

  lemma OneMore(c: Config, run: seq<Sys>, s': Sys)
    requires IsRun(c, run) && IsStep(c, run[|run| - 1], s')
    ensures IsRun(c, run + [s'])
  {
    AppendStep(c, run, s');
  }

  lemma NothingLostYet(c: Config, nodes: seq<Node>, draw: int)
    requires ReadyFor(c, nodes)
    ensures NoneLost(c, Begin(c, nodes, draw))
  {
    var s := Begin(c, nodes, draw);
    var outs := OnRootTimer(nodes[c.root], draw).outs;
    forall k, u, v, i | 0 <= u < c.n && 0 <= v < c.n && 0 <= i < |s.net(Chan(k, u, v))|
      ensures s.net(Chan(k, u, v))[i].status != Lost
    {
      assert s.net(Chan(k, u, v)) == if u == c.root then [] + Fresh(To(outs, k, v)) else [];
    }
  }

  lemma OnlyRootJoined(c: Config, nodes: seq<Node>, draw: int, draws: seq<int>)
    requires ReadyFor(c, nodes) && |draws| == c.n
    ensures Drew(c, Begin(c, nodes, draw), draws)
  {
  }

  /** The end of a round without losses, with the loads chosen. */
  ghost predicate EndsWell(c: Config, s: Sys, draws: seq<int>)
  {
    && c.root < c.n && |s.nodes| == |s.hist| == c.n == |draws|
    && Quiet(c, s) && Drew(c, s, draws) && s.nodes[c.root].hasConverged && Finished(c, s)
  }

  /**
   * Every ready and connected network has a run without losses, with whatever loads are drawn,
   * that ends with everything delivered and so converged.
   */
  lemma LossFreeRun(c: Config, nodes: seq<Node>, draw: int, draws: seq<int>) returns (run: seq<Sys>)
    requires ReadyFor(c, nodes) && Connected(c) && c.n >= 2 && 0 <= draw < 200 && Draws(c, draws)
    requires c.nbrs[c.root] != []
    ensures IsRun(c, run) && run[0] == Begin(c, nodes, draw) && EndsWell(c, run[|run| - 1], draws)
  {
    var first := FirstState(c, nodes, draw, draws);
    run := GoOn(c, first, draws);
    RunInv(c, run, |run| - 1);
    QuietIsConverged(c, run[|run| - 1]);
  }

  lemma FirstState(c: Config, nodes: seq<Node>, draw: int, draws: seq<int>) returns (run: seq<Sys>)
    requires ReadyFor(c, nodes) && 0 <= draw < 200 && |draws| == c.n
    ensures IsRun(c, run) && run == [Begin(c, nodes, draw)] && Lossless(c, run[|run| - 1], draws)
  {
    run := [Begin(c, nodes, draw)];
    NothingLostYet(c, nodes, draw);
    OnlyRootJoined(c, nodes, draw, draws);
  }

  // ---- a network that overflows ----

  /** Below a root with one neighbour every common node is in that neighbour's subtree. */
  lemma AllBelow(c: Config, s: Sys, w: nat)
    requires Inv(c, s) && |c.nbrs[c.root]| == 1 && w < c.n && w != c.root && J(c, s, w)
    ensures var v := c.nbrs[c.root][0]; v < c.n && v != c.root && J(c, s, v) && A(s, v) <= A(s, w)
  {
    RootJoined(c, s);
    RootAddr(c, s);
    assert TableOk(c, c.root);
    ParentFacts(c, s, w);
    AddrNonEmpty(c, s, Par(s, w));
    var x := Ancestor(c, s, w, 2);
    assert A(s, x) == A(s, w)[..2];
    ParentFacts(c, s, x);
    assert |A(s, Par(s, x))| == 1;
    OneIdIsRoot(c, s, Par(s, x));
    assert x in c.nbrs[c.root];
  }

  lemma WholeSubtree(c: Config, s: Sys)
    requires Inv(c, s) && |c.nbrs[c.root]| == 1 && forall w :: 0 <= w < c.n ==> J(c, s, w)
    ensures var v := c.nbrs[c.root][0]; v < c.n && v != c.root && Subtree(c, s, v) == Common(c)
    ensures |Common(c)| == c.n - 1
  {
    var v := c.nbrs[c.root][0];
    assert TableOk(c, c.root);
    RootJoined(c, s);
    RootAddr(c, s);
    ParentFacts(c, s, v);
    AddrNonEmpty(c, s, Par(s, v));
    forall w | 0 <= w < c.n
      ensures w in Subtree(c, s, v) <==> w != c.root
    {
      if w != c.root {
        AllBelow(c, s, w);
      }
    }
    AddOne(Common(c), Range(c.n), c.root);
  }

  /** The end of a round in which every common node drew 0. */
  lemma ZeroLoads(c: Config, s: Sys, draws: seq<int>)
    requires Inv(c, s) && TotalInv(c, s) && Finished(c, s) && |c.nbrs[c.root]| == 1 && c.n == 329
    requires |draws| == c.n && Drew(c, s, draws) && forall v :: 0 <= v < c.n ==> draws[v] == 0
    ensures var v := c.nbrs[c.root][0];
            v < c.n && SubtreeSurplus(c, s, v) == -32800 && Extra(s, v) == 32736 && RootExcess(c, s) == 65536
  {
    var v := c.nbrs[c.root][0];
    WholeSubtree(c, s);
    assert HasShared(c, s, v);
    forall w | w in Subtree(c, s, v)
      ensures s.hist[w].start == 0
    {
      assert w in Common(c);
      assert draws[w] == 0;
    }
    LargeSubtreeWraps(c, s, v);
    ExcessOfOne(c, s);
  }

  /** With one neighbour the root is off by what that neighbour's Share wrapped. */
  lemma ExcessOfOne(c: Config, s: Sys)
    requires Inv(c, s) && TotalInv(c, s) && Finished(c, s) && |c.nbrs[c.root]| == 1
    ensures var v := c.nbrs[c.root][0]; v < c.n && RootExcess(c, s) == Wrap(SubtreeSurplus(c, s, v))
  {
    var v := c.nbrs[c.root][0];
    assert TableOk(c, c.root);
    forall x | 0 <= x < c.n
      ensures ChildOf(c, s, x, c.root) <==> x == v
    {
      OnlyChild(c, s, x);
    }
    RootGains(c, s);
    SumSingle(RootWraps(c, s), v);
  }

  lemma OnlyChild(c: Config, s: Sys, x: nat)
    requires Inv(c, s) && |c.nbrs[c.root]| == 1 && x < c.n && J(c, s, x)
    ensures ChildOf(c, s, x, c.root) <==> x == c.nbrs[c.root][0]
  {
    HeardNoChild(c, s, x, c.root);
    assert TableOk(c, c.root);
    if x == c.nbrs[c.root][0] {
      RootJoined(c, s);
      RootAddr(c, s);
      ParentFacts(c, s, x);
      AddrNonEmpty(c, s, Par(s, x));
      AllBelow(c, s, x);
      if Par(s, x) != c.root {
        AllBelow(c, s, Par(s, x));
      }
    }
  }

  /**
   * The overflow happens: in a network of 329 nodes whose root has one neighbour, a round without
   * losses in which every common node draws 0 ends with that neighbour sending 32736, where its
   * subtree lacks 32800.
   */
  lemma OverflowHappens(c: Config, nodes: seq<Node>, draw: int) returns (run: seq<Sys>)
    requires ReadyFor(c, nodes) && Connected(c) && c.n == 329 && |c.nbrs[c.root]| == 1 && 0 <= draw < 200
    ensures IsRun(c, run) && run[0] == Begin(c, nodes, draw)
    ensures Overflowed(c, run[|run| - 1])
  {
    var draws := Zeros(c.n);
    run := LossFreeRun(c, nodes, draw, draws);
    OverflowAtEnd(c, run, draws);
  }

  function Zeros(n: nat): (r: seq<int>)
    ensures |r| == n && forall v :: 0 <= v < n ==> r[v] == 0
  {
    seq(n, _ => 0)
  }

  lemma OverflowAtEnd(c: Config, run: seq<Sys>, draws: seq<int>)
    requires IsRun(c, run) && c.root < |c.nbrs| && |c.nbrs[c.root]| == 1 && c.n == 329
    requires EndsWell(c, run[|run| - 1], draws) && forall v :: 0 <= v < c.n ==> draws[v] == 0
    ensures Overflowed(c, run[|run| - 1])
  {
    RunTotal(c, run, |run| - 1);
    ZeroLoads(c, run[|run| - 1], draws);
  }

  /** The root has converged, its one neighbour has sent 32736 for a lack of 32800, and the root holds 65536 too much. */
  ghost predicate Overflowed(c: Config, s: Sys)
  {
    && |s.nodes| == |s.hist| == |c.nbrs| == c.n && c.root < c.n && |c.nbrs[c.root]| == 1
    && var v := c.nbrs[c.root][0];
    && v < c.n && s.nodes[c.root].hasConverged && SubtreeSurplus(c, s, v) == -32800 && Extra(s, v) == 32736
    && RootExcess(c, s) == 65536
  }

  // ---- such a network ----

  /** The neighbours of `v` in a binary tree of `n` nodes below node 1, with the root 0 above it. */
  function TreeNbrs(v: nat, n: nat): seq<LinkId>
  {
    (if v > 0 then [v / 2] else []) + (if 0 < 2 * v < n then [2 * v] else []) + (if 2 * v + 1 < n then [2 * v + 1] else [])
  }

  lemma TreeNbrsAre(v: nat, n: nat, u: nat)
    requires v < n
    ensures u in TreeNbrs(v, n) <==> (v > 0 && u == v / 2) || (0 < u < n && v == u / 2)
    ensures |TreeNbrs(v, n)| <= 3
    ensures forall i, j :: 0 <= i < j < |TreeNbrs(v, n)| ==> TreeNbrs(v, n)[i] != TreeNbrs(v, n)[j]
  {
  }

  function Tree(n: nat): Config
  {
    Config(n, 0, seq(n, v requires 0 <= v < n => TreeNbrs(v, n)), 0)
  }

  function Booted(v: nat, g: seq<LinkId>): Node
    requires |g| <= 255
  {
    Node(v, v == 0, 1, seq(|g|, i requires 0 <= i < |g| => Nbr(g[i], i + 1, 0, 0, 0)), [], [], 0, 0, 0, 0, false, false, false, 0, false, -1)
  }

  lemma TreeOk(n: nat)
    requires n > 0
    ensures ConfigOk(Tree(n))
  {
    var c := Tree(n);
    forall v | 0 <= v < n
      ensures TableOk(c, v)
    {
      TreeNbrsAre(v, n, 0);
      forall i | 0 <= i < |c.nbrs[v]|
        ensures c.nbrs[v][i] < n && c.nbrs[v][i] != v
      {
        TreeNbrsAre(v, n, c.nbrs[v][i]);
      }
    }
    forall u, v | 0 <= u < n && 0 <= v < n
      ensures u in c.nbrs[v] <==> v in c.nbrs[u]
    {
      TreeNbrsAre(v, n, u);
      TreeNbrsAre(u, n, v);
    }
  }

  lemma {:induction false} TreePath(n: nat, v: nat) returns (p: seq<nat>)
    requires v < n && ConfigOk(Tree(n))
    ensures PathTo(Tree(n), p, v)
  {
    var c := Tree(n);
    if v == 0 {
      p := [0];
    } else {
      var q := TreePath(n, v / 2);
      p := q + [v];
      TreeNbrsAre(v / 2, n, v);
      forall i | 0 < i < |p|
        ensures Hop(c, p, i)
      {
        assert i < |q| ==> Hop(c, q, i);
      }
    }
  }

  lemma TreeConnected(n: nat)
    requires n > 0 && ConfigOk(Tree(n))
    ensures Connected(Tree(n))
  {
    forall v | 0 <= v < n
      ensures Reachable(Tree(n), v)
    {
      var p := TreePath(n, v);
    }
  }

  lemma TablesFit(c: Config)
    requires ConfigOk(c)
    ensures forall v :: 0 <= v < c.n ==> |c.nbrs[v]| <= 255
  {
    forall v | 0 <= v < c.n
      ensures |c.nbrs[v]| <= 255
    {
      assert TableOk(c, v);
    }
  }

  function Boots(c: Config): (r: seq<Node>)
    requires ConfigOk(c)
    ensures |r| == c.n && forall v :: 0 <= v < c.n ==> |c.nbrs[v]| <= 255 && r[v] == Booted(v, c.nbrs[v])
  {
    TablesFit(c);
    seq(c.n, v requires 0 <= v < c.n => Booted(v, c.nbrs[v]))
  }

  lemma TreeReady(n: nat)
    requires n > 0 && ConfigOk(Tree(n))
    ensures ReadyFor(Tree(n), Boots(Tree(n)))
  {
    var c := Tree(n);
    assert TableOk(c, 0);
  }

  lemma TreeRoot(n: nat)
    requires n > 1
    ensures |Tree(n).nbrs[0]| == 1
  {
    assert Tree(n).nbrs[0] == [1];
  }

  lemma TreeOverflows(n: nat) returns (run: seq<Sys>)
    requires n == 329
    ensures ConfigOk(Tree(n)) && Connected(Tree(n)) && IsRun(Tree(n), run) && Overflowed(Tree(n), run[|run| - 1])
  {
    TreeOk(n);
    TreeConnected(n);
    TreeReady(n);
    TreeRoot(n);
    run := OverflowHappens(Tree(n), Boots(Tree(n)), 0);
  }

  /** A connected network of 329 nodes with at most 3 neighbours each, in which the overflow happens. */
  lemma OverflowExists() returns (c: Config, run: seq<Sys>)
    ensures ConfigOk(c) && Connected(c) && IsRun(c, run) && Overflowed(c, run[|run| - 1])
    ensures c.n == 329 && forall v :: 0 <= v < c.n ==> |c.nbrs[v]| <= 3
  {
    var n: nat :| n == 329;
    c := Tree(n);
    run := TreeOverflows(n);
    forall v | 0 <= v < c.n
      ensures |c.nbrs[v]| <= 3
    {
      TreeNbrsAre(v, n, 0);
    }
  }
}
