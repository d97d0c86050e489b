/** Where the load goes: conservation, the closed form of every Share, and overflow. */
module RoundLoads {
  import opened Types
  import opened Sums
  import opened NodeModel
  import opened RoundLocal
  import opened Round
  import opened RoundInv
  import opened RoundTree
  import opened RoundSafety
  import opened RoundCount

  /** Shares processed by a node, by sender. */
  function ShareRow(shares: map<LinkId, int>, n: nat): (r: seq<int>)
    ensures |r| == n && forall a :: 0 <= a < n ==> r[a] == if a in shares then shares[a] else 0
  {
    seq(n, a requires 0 <= a < n => if a in shares then shares[a] else 0)
  }

  // ---- the record of loads ----

  /** The total is the sum of the Shares, and common nodes drew a load below 200. */
  ghost predicate TotalOk(c: Config, s: Sys, v: nat)
    requires v < |s.nodes| == |s.hist|
  {
    J(c, s, v) ==>
      && s.hist[v].total == Sum(ShareRow(s.hist[v].shares, c.n))
      && (v != c.root ==> 0 <= s.hist[v].start < 200)
  }

  ghost predicate TotalInv(c: Config, s: Sys)
    requires |s.nodes| == |s.hist| == c.n
  {
    forall v :: 0 <= v < c.n ==> TotalOk(c, s, v)
  }

  lemma RecordTotal(n: Node, h: Hist, u: nat, m: Msg, draw: int, ts: nat, count: nat)
    requires u < count && 0 <= draw < 200
    requires m.SetHlmac? || Joined(n.table, ts)
    requires Joined(n.table, ts) ==> h.total == Sum(ShareRow(h.shares, count)) && (m.Share? ==> u !in h.shares)
    ensures var h' := Record(n, h, u, m, draw, ts);
            && h'.total == Sum(ShareRow(h'.shares, count))
            && (h'.start == draw || (Joined(n.table, ts) && h'.start == h.start))
  {
    var h' := Record(n, h, u, m, draw, ts);
    if m.Share? {
      SumUpdate(ShareRow(h.shares, count), ShareRow(h'.shares, count), u);
    } else if !Joined(n.table, ts) {
      SumZero(ShareRow(h'.shares, count));
    }
  }

  lemma TotalStep(c: Config, s: Sys, s': Sys)
    requires Inv(c, s) && TotalInv(c, s) && IsStep(c, s, s')
    ensures |s'.nodes| == |s'.hist| == c.n && TotalInv(c, s')
  {
    var e :| Enabled(c, s, e) && s' == Step(c, s, e);
    forall v | 0 <= v < c.n
      ensures TotalOk(c, s', v)
    {
      assert TotalOk(c, s, v);
      if e.Deliver? && v == e.ch.dst {
        UnderWay(c, s, e.ch, e.j);
        ReceiverJoined(c, s, e.ch, e.j);
        RecordTotal(s.nodes[v], s.hist[v], e.ch.src, s.net(e.ch)[e.j].msg, e.draw, c.ts, c.n);
        RootJoined(c, s);
      }
    }
  }

  lemma TotalNext(c: Config, run: seq<Sys>, i: nat)
    requires AllSteps(c, run) && i + 1 < |run| && Inv(c, run[i]) && TotalInv(c, run[i])
    ensures |run[i + 1].nodes| == |run[i + 1].hist| == c.n && TotalInv(c, run[i + 1])
  {
    NextStep(c, run, i);
    TotalStep(c, run[i], run[i + 1]);
  }

  lemma {:induction false} TotalFrom(c: Config, run: seq<Sys>, i: nat)
    requires AllSteps(c, run) && i < |run| && Inv(c, run[0]) && TotalInv(c, run[0])
    ensures Inv(c, run[i]) && TotalInv(c, run[i])
  {
    if i > 0 {
      TotalFrom(c, run, i - 1);
      InvNext(c, run, i - 1);
      TotalNext(c, run, i - 1);
    }
  }

  lemma BeginTotal(c: Config, nodes: seq<Node>, draw: int)
    requires ReadyFor(c, nodes) && c.nbrs[c.root] != []
    ensures var s := Begin(c, nodes, draw); |s.nodes| == |s.hist| == c.n && TotalInv(c, s)
  {
    SumZero(ShareRow(map[], c.n));
  }

  lemma RunTotal(c: Config, run: seq<Sys>, i: nat)
    requires IsRun(c, run) && c.nbrs[c.root] != [] && i < |run|
    ensures Inv(c, run[i]) && TotalInv(c, run[i])
  {
    var nodes, draw := RunStart(c, run);
    BeginInv(c, nodes, draw);
    BeginTotal(c, nodes, draw);
    TotalFrom(c, run, i);
  }

  /** The load the root starts with is drawn in its first round; later it is what the root holds. */
  lemma RootStarts(c: Config, nodes: seq<Node>, draw: int)
    requires ReadyFor(c, nodes)
    ensures var s := Begin(c, nodes, draw);
            |s.hist| == c.n && s.hist[c.root].start == if nodes[c.root].nodeList == [] then draw else HeadLoad(nodes[c.root])
  {
    RootOpens(nodes[c.root], draw, PlaceAt(c, c.root));
  }

  lemma RootStartStep(c: Config, s: Sys, s': Sys)
    requires Inv(c, s) && IsStep(c, s, s')
    ensures |s'.hist| == c.n && s'.hist[c.root].start == s.hist[c.root].start
  {
    var e :| Enabled(c, s, e) && s' == Step(c, s, e);
    RootJoined(c, s);
  }

  lemma {:induction false} RootStartStays(c: Config, run: seq<Sys>, i: nat)
    requires AllSteps(c, run) && i < |run| && Inv(c, run[0])
    ensures Inv(c, run[i]) && run[i].hist[c.root].start == run[0].hist[c.root].start
  {
    if i > 0 {
      RootStartStays(c, run, i - 1);
      NextStep(c, run, i - 1);
      RootStartStep(c, run[i - 1], run[i]);
      StepInv(c, run[i - 1], run[i]);
    }
  }

  // ---- the vectors of a state ----

  /** The value of the Share a node has sent. */
  function Extra(s: Sys, v: nat): int
    requires v < |s.nodes|
  {
    s.nodes[v].extraLoad
  }

  /** A joined common node that has sent its Share. */
  predicate HasShared(c: Config, s: Sys, v: nat)
    requires v < |s.nodes|
  {
    SentUp(c, s, KShare, v)
  }

  function Loads(c: Config, s: Sys): (r: seq<int>)
    requires |s.nodes| == c.n
    ensures |r| == c.n && forall v :: 0 <= v < c.n ==> r[v] == if J(c, s, v) then HeadLoad(s.nodes[v]) else 0
  {
    seq(c.n, v requires 0 <= v < c.n => if J(c, s, v) then HeadLoad(s.nodes[v]) else 0)
  }

  function Starts(c: Config, s: Sys): (r: seq<int>)
    requires |s.nodes| == |s.hist| == c.n
    ensures |r| == c.n && forall v :: 0 <= v < c.n ==> r[v] == if J(c, s, v) then s.hist[v].start else 0
  {
    seq(c.n, v requires 0 <= v < c.n => if J(c, s, v) then s.hist[v].start else 0)
  }

  function Totals(c: Config, s: Sys): (r: seq<int>)
    requires |s.nodes| == |s.hist| == c.n
    ensures |r| == c.n && forall v :: 0 <= v < c.n ==> r[v] == if J(c, s, v) then s.hist[v].total else 0
  {
    seq(c.n, v requires 0 <= v < c.n => if J(c, s, v) then s.hist[v].total else 0)
  }

  function Extras(c: Config, s: Sys): (r: seq<int>)
    requires |s.nodes| == |s.hist| == c.n
    ensures |r| == c.n && forall v :: 0 <= v < c.n ==> r[v] == if HasShared(c, s, v) then Extra(s, v) else 0
  {
    seq(c.n, v requires 0 <= v < c.n => if HasShared(c, s, v) then Extra(s, v) else 0)
  }

  // ---- Shares on the network ----

  function ShareValue(m: Msg): int { if m.Share? then m.value else 0 }

  /** The Shares of a channel that are in flight or lost. */
  function Undelivered(cs: seq<Cell>): int
  {
    if cs == [] then 0
    else Undelivered(cs[..|cs| - 1]) + if cs[|cs| - 1].status == Delivered then 0 else ShareValue(cs[|cs| - 1].msg)
  }

  function UndeliveredRow(c: Config, s: Sys, u: nat): (r: seq<int>)
    ensures |r| == c.n && forall v :: 0 <= v < c.n ==> r[v] == Undelivered(s.net(Chan(KShare, u, v)))
  {
    seq(c.n, v requires 0 <= v < c.n => Undelivered(s.net(Chan(KShare, u, v))))
  }

  function UndeliveredMatrix(c: Config, s: Sys): (m: seq<seq<int>>)
    ensures |m| == c.n && forall u :: 0 <= u < c.n ==> m[u] == UndeliveredRow(c, s, u)
  {
    seq(c.n, u requires 0 <= u < c.n => UndeliveredRow(c, s, u))
  }

  /** Share values in flight or lost. */
  function UndeliveredTotal(c: Config, s: Sys): int { Sum2(UndeliveredMatrix(c, s)) }

  /** What `v` has received from `u`. */
  function Received(c: Config, s: Sys, u: nat, v: nat): int
    requires v < |s.nodes| == |s.hist|
  {
    if J(c, s, v) && u in s.hist[v].shares then s.hist[v].shares[u] else 0
  }

  /** What `u` has got through, by receiver. */
  function ThroughRow(c: Config, s: Sys, u: nat): (r: seq<int>)
    requires |s.nodes| == |s.hist| == c.n
    ensures |r| == c.n && forall v :: 0 <= v < c.n ==> r[v] == Received(c, s, u, v)
  {
    seq(c.n, v requires 0 <= v < c.n => Received(c, s, u, v))
  }

  /** What `v` has received, by sender. */
  function InRow(c: Config, s: Sys, v: nat): (r: seq<int>)
    requires |s.nodes| == |s.hist| == c.n && v < c.n
    ensures |r| == c.n && forall u :: 0 <= u < c.n ==> r[u] == Received(c, s, u, v)
  {
    seq(c.n, u requires 0 <= u < c.n => Received(c, s, u, v))
  }

  function Through(c: Config, s: Sys): (m: seq<seq<int>>)
    requires |s.nodes| == |s.hist| == c.n
    ensures |m| == c.n && forall u :: 0 <= u < c.n ==> m[u] == ThroughRow(c, s, u)
  {
    seq(c.n, u requires 0 <= u < c.n => ThroughRow(c, s, u))
  }

  function In(c: Config, s: Sys): (m: seq<seq<int>>)
    requires |s.nodes| == |s.hist| == c.n
    ensures |m| == c.n && forall v :: 0 <= v < c.n ==> m[v] == InRow(c, s, v)
  {
    seq(c.n, v requires 0 <= v < c.n => InRow(c, s, v))
  }

  /** A Share is either on the network or received, and only at the parent. */
  lemma PairShare(c: Config, s: Sys, u: nat, v: nat)
    requires Inv(c, s) && u < c.n && v < c.n
    ensures Undelivered(s.net(Chan(KShare, u, v))) + Received(c, s, u, v) ==
            if HasShared(c, s, u) && v == Par(s, u) then Extra(s, u) else 0
  {
    assert ChanInv(c, s, KShare, u, v) && NodeInv(c, s, u);
    var cs := s.net(Chan(KShare, u, v));
    if cs != [] {
      assert cs[..0] == [];
    }
  }

  lemma RowShare(c: Config, s: Sys, u: nat)
    requires Inv(c, s) && u < c.n
    ensures Sum(UndeliveredRow(c, s, u)) + Sum(ThroughRow(c, s, u)) == Extras(c, s)[u]
  {
    var a, b := UndeliveredRow(c, s, u), ThroughRow(c, s, u);
    var d := seq(c.n, v requires 0 <= v < c.n => a[v] + b[v]);
    forall v | 0 <= v < c.n
      ensures d[v] == if HasShared(c, s, u) && v == Par(s, u) then Extra(s, u) else 0
    {
      PairShare(c, s, u, v);
    }
    SumAdd(a, b, d);
    if HasShared(c, s, u) {
      ParentFacts(c, s, u);
      SumSingle(d, Par(s, u));
    } else {
      SumZero(d);
    }
  }

  lemma ColumnTotal(c: Config, s: Sys, v: nat)
    requires Inv(c, s) && TotalInv(c, s) && v < c.n
    ensures Sum(InRow(c, s, v)) == Totals(c, s)[v]
  {
    assert TotalOk(c, s, v);
    if J(c, s, v) {
      assert InRow(c, s, v) == ShareRow(s.hist[v].shares, c.n);
    } else {
      SumZero(InRow(c, s, v));
    }
  }

  lemma ReceivedTotals(c: Config, s: Sys)
    requires Inv(c, s) && TotalInv(c, s)
    ensures Sum2(Through(c, s)) == Sum(Totals(c, s))
  {
    forall v | 0 <= v < c.n
      ensures RowSums(In(c, s))[v] == Totals(c, s)[v]
    {
      ColumnTotal(c, s, v);
    }
    assert RowSums(In(c, s)) == Totals(c, s);
    SumSwap(Through(c, s), In(c, s), c.n, c.n);
  }

  /** Everything sent is received or on the network. */
  lemma SharesSplit(c: Config, s: Sys)
    requires Inv(c, s) && TotalInv(c, s)
    ensures Sum(Extras(c, s)) == UndeliveredTotal(c, s) + Sum(Totals(c, s))
  {
    forall u | 0 <= u < c.n
      ensures Extras(c, s)[u] == RowSums(UndeliveredMatrix(c, s))[u] + RowSums(Through(c, s))[u]
    {
      RowShare(c, s, u);
    }
    SumAdd(RowSums(UndeliveredMatrix(c, s)), RowSums(Through(c, s)), Extras(c, s));
    ReceivedTotals(c, s);
  }

  /** What a common node had above 100 once all its Shares were in. */
  function NodeSurplus(s: Sys, v: nat): int
    requires v < |s.hist|
  {
    s.hist[v].start + s.hist[v].total - 100
  }

  /** How far a value moves when it is stored in a `short`. */
  function Wrap(x: int): (r: int)
    ensures r % 65536 == 0
    ensures r == 0 <==> -32768 <= x <= 32767
  {
    ToInt16Mod(x);
    ToInt16(x) - x
  }

  /** How far the Shares sent so far wrapped, by sender. */
  function Wraps(c: Config, s: Sys): (r: seq<int>)
    requires |s.nodes| == |s.hist| == c.n
    ensures |r| == c.n
    ensures forall v :: 0 <= v < c.n ==> r[v] == if HasShared(c, s, v) then Wrap(NodeSurplus(s, v)) else 0
  {
    seq(c.n, v requires 0 <= v < c.n => if HasShared(c, s, v) then Wrap(NodeSurplus(s, v)) else 0)
  }

  /** The Share of `v` is its surplus, not just modulo 2^16. */
  predicate Exact(c: Config, s: Sys, v: nat)
    requires v < |s.nodes| == |s.hist|
  {
    HasShared(c, s, v) ==> Extra(s, v) == NodeSurplus(s, v)
  }

  /** The books of one node. */
  lemma NodeBooks(c: Config, s: Sys, v: nat)
    requires Inv(c, s) && v < c.n && J(c, s, v)
    ensures var due := s.hist[v].start + s.hist[v].total;
            if HasShared(c, s, v) then HeadLoad(s.nodes[v]) == 100 && Extra(s, v) == ToInt16(due - 100)
            else HeadLoad(s.nodes[v]) == due
  {
    assert NodeInv(c, s, v);
  }

  /** A node's books are off by what its Share wrapped. */
  lemma NodeWrap(c: Config, s: Sys, v: nat)
    requires Inv(c, s) && v < c.n
    ensures Loads(c, s)[v] + Extras(c, s)[v] == Starts(c, s)[v] + Totals(c, s)[v] + Wraps(c, s)[v]
    ensures Exact(c, s, v) ==> Wraps(c, s)[v] == 0
  {
    if J(c, s, v) {
      NodeBooks(c, s, v);
    }
  }

  lemma NoWraps(c: Config, s: Sys)
    requires Inv(c, s) && forall v :: 0 <= v < c.n ==> Exact(c, s, v)
    ensures Sum(Wraps(c, s)) == 0
  {
    forall v | 0 <= v < c.n
      ensures Wraps(c, s)[v] == 0
    {
      NodeWrap(c, s, v);
    }
    SumZero(Wraps(c, s));
  }

  /** The books of all nodes. */
  lemma NodeSums(c: Config, s: Sys)
    requires Inv(c, s)
    ensures Sum(Loads(c, s)) + Sum(Extras(c, s)) == Sum(Starts(c, s)) + Sum(Totals(c, s)) + Sum(Wraps(c, s))
  {
    var a := seq(c.n, v requires 0 <= v < c.n => Loads(c, s)[v] + Extras(c, s)[v]);
    var b := seq(c.n, v requires 0 <= v < c.n => Starts(c, s)[v] + Totals(c, s)[v]);
    SumAdd(Loads(c, s), Extras(c, s), a);
    SumAdd(Starts(c, s), Totals(c, s), b);
    forall v | 0 <= v < c.n
      ensures a[v] == b[v] + Wraps(c, s)[v]
    {
      NodeWrap(c, s, v);
    }
    SumAdd(b, Wraps(c, s), a);
  }

  /**
   * Load conservation in every reachable state: what the nodes hold plus the Shares in flight or
   * lost is what the joined nodes started with and what the Shares sent so far wrapped: a
   * multiple of 2^16, and nothing when no Share wrapped.
   */
  lemma Conservation(c: Config, s: Sys)
    requires Inv(c, s) && TotalInv(c, s)
    ensures Sum(Loads(c, s)) + UndeliveredTotal(c, s) == Sum(Starts(c, s)) + Sum(Wraps(c, s))
    ensures Sum(Wraps(c, s)) % 65536 == 0
    ensures (forall v :: 0 <= v < c.n ==> Exact(c, s, v)) ==> Sum(Wraps(c, s)) == 0
  {
    SharesSplit(c, s);
    NodeSums(c, s);
    SumMod(Wraps(c, s));
    if forall v :: 0 <= v < c.n ==> Exact(c, s, v) {
      NoWraps(c, s);
    }
  }

  // ---- the closed form ----

  /** The joined nodes whose address runs through `u`. */
  function Subtree(c: Config, s: Sys, u: nat): (r: set<nat>)
    requires |s.nodes| == c.n && u < c.n
    ensures forall w :: w in r <==> 0 <= w < c.n && J(c, s, w) && A(s, u) <= A(s, w)
  {
    set w | w in Range(c.n) && J(c, s, w) && A(s, u) <= A(s, w)
  }

  /** What each node of a set started with beyond 100. */
  function Surplus(c: Config, s: Sys, nodes: set<nat>): (r: seq<int>)
    requires |s.hist| == c.n
    ensures |r| == c.n && forall w :: 0 <= w < c.n ==> r[w] == if w in nodes then s.hist[w].start - 100 else 0
  {
    seq(c.n, w requires 0 <= w < c.n => if w in nodes then s.hist[w].start - 100 else 0)
  }

  /** The sum over the subtree of (initial load - 100). */
  function SubtreeSurplus(c: Config, s: Sys, u: nat): int
    requires |s.nodes| == |s.hist| == c.n && u < c.n
  {
    Sum(Surplus(c, s, Subtree(c, s, u)))
  }

  /** The surplus of `w` seen through each child of `u`. */
  function ByChildRow(c: Config, s: Sys, u: nat, w: nat): (r: seq<int>)
    requires |s.nodes| == |s.hist| == c.n && w < c.n
    ensures |r| == c.n
    ensures forall x :: 0 <= x < c.n ==> r[x] == if ChildOf(c, s, x, u) && w in Subtree(c, s, x) then s.hist[w].start - 100 else 0
  {
    seq(c.n, x requires 0 <= x < c.n => if ChildOf(c, s, x, u) && w in Subtree(c, s, x) then s.hist[w].start - 100 else 0)
  }

  function ByChild(c: Config, s: Sys, u: nat): (m: seq<seq<int>>)
    requires |s.nodes| == |s.hist| == c.n
    ensures |m| == c.n && forall w :: 0 <= w < c.n ==> m[w] == ByChildRow(c, s, u, w)
  {
    seq(c.n, w requires 0 <= w < c.n => ByChildRow(c, s, u, w))
  }

  /** The surplus of each node under child `x`, or nothing. */
  function UnderRow(c: Config, s: Sys, u: nat, x: nat): (r: seq<int>)
    requires |s.nodes| == |s.hist| == c.n && x < c.n
    ensures |r| == c.n
  {
    Surplus(c, s, if ChildOf(c, s, x, u) then Subtree(c, s, x) else {})
  }

  function Under(c: Config, s: Sys, u: nat): (m: seq<seq<int>>)
    requires |s.nodes| == |s.hist| == c.n
    ensures |m| == c.n && forall x :: 0 <= x < c.n ==> m[x] == UnderRow(c, s, u, x)
  {
    seq(c.n, x requires 0 <= x < c.n => UnderRow(c, s, u, x))
  }

  /** A child's address extends its parent's by one id. */
  lemma ChildAddr(c: Config, s: Sys, x: nat, u: nat)
    requires Inv(c, s) && x < c.n && ChildOf(c, s, x, u)
    ensures u < c.n && J(c, s, u) && A(s, u) < A(s, x) && |A(s, x)| == |A(s, u)| + 1
  {
    ParentFacts(c, s, x);
  }

  /** Each proper descendant of `u` lies under exactly one child of `u`. */
  lemma OneChild(c: Config, s: Sys, u: nat, w: nat)
    requires Inv(c, s) && u < c.n && w < c.n && J(c, s, u)
    ensures Sum(ByChildRow(c, s, u, w)) == if J(c, s, w) && A(s, u) < A(s, w) then s.hist[w].start - 100 else 0
  {
    var row := ByChildRow(c, s, u, w);
    if J(c, s, w) && A(s, u) < A(s, w) {
      var x := ChildTowards(c, s, u, w);
      forall y | 0 <= y < c.n && y != x
        ensures row[y] == 0
      {
        if ChildOf(c, s, y, u) && w in Subtree(c, s, y) {
          ChildAddr(c, s, y, u);
          assert A(s, y) == A(s, w)[..|A(s, u)| + 1];
          AddrInjective(c, s, x, y);
        }
      }
      SumSingle(row, x);
    } else {
      forall y | 0 <= y < c.n
        ensures row[y] == 0
      {
        if ChildOf(c, s, y, u) && w in Subtree(c, s, y) {
          ChildAddr(c, s, y, u);
        }
      }
      SumZero(row);
    }
  }

  /** The subtree of `u` is `u` and the subtrees of its children. */
  lemma SubtreeSplit(c: Config, s: Sys, u: nat)
    requires Inv(c, s) && u < c.n && J(c, s, u)
    ensures SubtreeSurplus(c, s, u) == s.hist[u].start - 100 + Sum2(Under(c, s, u))
  {
    SumSwap(ByChild(c, s, u), Under(c, s, u), c.n, c.n);
    var rows, all := RowSums(ByChild(c, s, u)), Surplus(c, s, Subtree(c, s, u));
    forall w | 0 <= w < c.n
      ensures w != u ==> rows[w] == all[w]
      ensures w == u ==> rows[w] == 0 && all[w] == s.hist[u].start - 100
    {
      OneChild(c, s, u, w);
      if w != u && J(c, s, w) && A(s, u) == A(s, w) {
        AddrInjective(c, s, u, w);
      }
    }
    SumUpdate(rows, all, u);
  }

  /** Once a node has shared, it has the Share of every child, and of nobody else. */
  lemma ChildShares(c: Config, s: Sys, u: nat, x: nat)
    requires Inv(c, s) && u < c.n && x < c.n && HasShared(c, s, u)
    ensures x in s.hist[u].shares <==> ChildOf(c, s, x, u)
    ensures ChildOf(c, s, x, u) ==> HasShared(c, s, x) && s.hist[u].shares[x] == Extra(s, x)
  {
    assert NodeInv(c, s, u) && NodeInv(c, s, x);
    assert ChanInv(c, s, KShare, x, u) && ChanInv(c, s, KSet, x, u);
    DoneMeansHeard(c, s, u);
    HeardNoChild(c, s, x, u);
  }

  /** Received from `x`, against the surplus under `x`. */
  lemma ReceivedIsUnder(c: Config, s: Sys, u: nat, x: nat)
    requires Inv(c, s) && u < c.n && x < c.n && HasShared(c, s, u)
    ensures ShareRow(s.hist[u].shares, c.n)[x] == if ChildOf(c, s, x, u) then Extra(s, x) else 0
    ensures RowSums(Under(c, s, u))[x] == if ChildOf(c, s, x, u) then SubtreeSurplus(c, s, x) else 0
  {
    ChildShares(c, s, u, x);
    if !ChildOf(c, s, x, u) {
      SumZero(UnderRow(c, s, u, x));
    }
  }

  /** The Shares received sum up the children's subtrees, modulo 2^16 ... */
  lemma TotalIsUnder(c: Config, s: Sys, u: nat)
    requires Inv(c, s) && TotalInv(c, s) && u < c.n && HasShared(c, s, u)
    requires forall x :: 0 <= x < c.n && ChildOf(c, s, x, u) ==> Extra(s, x) == ToInt16(SubtreeSurplus(c, s, x))
    ensures ToInt16(s.hist[u].total) == ToInt16(Sum2(Under(c, s, u)))
  {
    var got, due := ShareRow(s.hist[u].shares, c.n), RowSums(Under(c, s, u));
    assert TotalOk(c, s, u);
    forall x | 0 <= x < c.n
      ensures ToInt16(got[x]) == ToInt16(due[x])
    {
      ReceivedIsUnder(c, s, u, x);
    }
    SumCongruent(got, due);
  }

  /** ... and exactly if theirs are exact. */
  lemma TotalIsExactlyUnder(c: Config, s: Sys, u: nat)
    requires Inv(c, s) && TotalInv(c, s) && u < c.n && HasShared(c, s, u)
    requires forall x :: 0 <= x < c.n && ChildOf(c, s, x, u) ==> Extra(s, x) == SubtreeSurplus(c, s, x)
    ensures s.hist[u].total == Sum2(Under(c, s, u))
  {
    var got, due := ShareRow(s.hist[u].shares, c.n), RowSums(Under(c, s, u));
    assert TotalOk(c, s, u);
    forall x | 0 <= x < c.n
      ensures got[x] == due[x]
    {
      ReceivedIsUnder(c, s, u, x);
    }
    assert got == due;
  }

  /** The Share of every node is the sum over its subtree of (initial load - 100), stored in a short. */
  lemma {:induction false} ClosedForm(c: Config, s: Sys, u: nat)
    requires Inv(c, s) && TotalInv(c, s) && u < c.n && HasShared(c, s, u)
    ensures Extra(s, u) == ToInt16(SubtreeSurplus(c, s, u))
    decreases c.n + 1 - |A(s, u)|
  {
    DepthBound(c, s, u);
    forall x | 0 <= x < c.n && ChildOf(c, s, x, u)
      ensures Extra(s, x) == ToInt16(SubtreeSurplus(c, s, x))
    {
      ChildShares(c, s, u, x);
      ChildAddr(c, s, x, u);
      DepthBound(c, s, x);
      ClosedForm(c, s, x);
    }
    TotalIsUnder(c, s, u);
    SubtreeSplit(c, s, u);
    NodeBooks(c, s, u);
    var own, under := s.hist[u].start - 100, Sum2(Under(c, s, u));
    ToInt16Add(own, s.hist[u].total, own, under);
    assert s.hist[u].start + s.hist[u].total - 100 == own + s.hist[u].total;
  }

  /** The Share does not wrap exactly when the surplus fits 16 bits. */
  lemma ClosedFormExact(c: Config, s: Sys, u: nat)
    requires Inv(c, s) && TotalInv(c, s) && u < c.n && HasShared(c, s, u)
    ensures Extra(s, u) == SubtreeSurplus(c, s, u) <==> -32768 <= SubtreeSurplus(c, s, u) <= 32767
  {
    ClosedForm(c, s, u);
  }

  /** Initial loads lie in [0, 199], so a subtree of k nodes owes at most 100k and offers at most 99k. */
  lemma SurplusBounds(c: Config, s: Sys, u: nat)
    requires Inv(c, s) && TotalInv(c, s) && u < c.n && J(c, s, u) && u != c.root
    ensures -100 * |Subtree(c, s, u)| <= SubtreeSurplus(c, s, u) <= 99 * |Subtree(c, s, u)|
    ensures Subtree(c, s, u) <= Common(c)
  {
    var t := Subtree(c, s, u);
    var a, w := Surplus(c, s, t), Indicator(c.n, t);
    IndicatorSum(c.n, t);
    RootJoined(c, s);
    RootAddr(c, s);
    ParentFacts(c, s, u);
    AddrNonEmpty(c, s, Par(s, u));
    assert c.root !in t;
    forall v | 0 <= v < c.n
      ensures -100 * w[v] <= a[v] <= 99 * w[v]
    {
      assert TotalOk(c, s, v);
    }
    SumBounds(a, w, -100, 99);
  }

  /** A surplus of a small subtree fits a `short`. */
  lemma SmallShare(c: Config, s: Sys, u: nat)
    requires Inv(c, s) && TotalInv(c, s) && u < c.n && HasShared(c, s, u)
    requires |Subtree(c, s, u)| <= 327
    ensures Extra(s, u) == SubtreeSurplus(c, s, u) && -32700 <= Extra(s, u) <= 32373
  {
    SurplusBounds(c, s, u);
    ClosedForm(c, s, u);
  }

  lemma SmallChild(c: Config, s: Sys, u: nat, x: nat)
    requires Inv(c, s) && TotalInv(c, s) && u < c.n && HasShared(c, s, u) && x < c.n && ChildOf(c, s, x, u)
    requires |Subtree(c, s, u)| <= 327
    ensures Extra(s, x) == SubtreeSurplus(c, s, x)
  {
    ChildShares(c, s, u, x);
    ChildAddr(c, s, x, u);
    assert Subtree(c, s, x) <= Subtree(c, s, u);
    SubsetCard(Subtree(c, s, x), Subtree(c, s, u));
    SmallShare(c, s, x);
  }

  /** A Share from a subtree of at most 327 nodes is exact, and so is its negation. */
  lemma SmallSubtreeIsExact(c: Config, s: Sys, u: nat)
    requires Inv(c, s) && TotalInv(c, s) && u < c.n && HasShared(c, s, u)
    requires |Subtree(c, s, u)| <= 327
    ensures Extra(s, u) == SubtreeSurplus(c, s, u) && ToInt16(-Extra(s, u)) == -Extra(s, u)
    ensures Exact(c, s, u)
  {
    SmallShare(c, s, u);
    forall x | 0 <= x < c.n && ChildOf(c, s, x, u)
      ensures Extra(s, x) == SubtreeSurplus(c, s, x)
    {
      SmallChild(c, s, u, x);
    }
    TotalIsExactlyUnder(c, s, u);
    SubtreeSplit(c, s, u);
  }

  /** 327 is the limit: 328 nodes that all start with nothing owe 32800, which wraps. */
  lemma LargeSubtreeWraps(c: Config, s: Sys, u: nat)
    requires Inv(c, s) && TotalInv(c, s) && u < c.n && HasShared(c, s, u)
    requires |Subtree(c, s, u)| == 328 && forall w :: w in Subtree(c, s, u) ==> s.hist[w].start == 0
    ensures SubtreeSurplus(c, s, u) == -32800 && Extra(s, u) == 32736
  {
    var t := Subtree(c, s, u);
    IndicatorSum(c.n, t);
    SumBounds(Surplus(c, s, t), Indicator(c.n, t), -100, -100);
    ClosedForm(c, s, u);
  }

  /** With at most 328 nodes in the network no Share wraps. */
  lemma SmallIsExact(c: Config, s: Sys)
    requires Inv(c, s) && TotalInv(c, s) && c.n <= 328
    ensures forall v :: 0 <= v < c.n ==> Exact(c, s, v)
  {
    forall v | 0 <= v < c.n
      ensures Exact(c, s, v)
    {
      if HasShared(c, s, v) {
        AllSubtreesSmall(c, s, v);
        SmallSubtreeIsExact(c, s, v);
      }
    }
  }

  lemma AllSubtreesSmall(c: Config, s: Sys, u: nat)
    requires Inv(c, s) && TotalInv(c, s) && u < c.n && HasShared(c, s, u) && c.n <= 328
    ensures |Subtree(c, s, u)| <= 327
  {
    SurplusBounds(c, s, u);
    SubsetCard(Subtree(c, s, u), Common(c));
    AddOne(Common(c), Range(c.n), c.root);
  }

  // ---- what the root holds at the end ----

  /** A finished round has delivered every Share. */
  lemma DeliveredShare(c: Config, s: Sys, v: nat)
    requires Inv(c, s) && Finished(c, s) && v < c.n && v != c.root
    ensures Par(s, v) < c.n && v in s.hist[Par(s, v)].shares && s.hist[Par(s, v)].shares[v] == Extra(s, v)
  {
    ParentFacts(c, s, v);
    assert NodeInv(c, s, v) && ChanInv(c, s, KShare, v, Par(s, v));
    assert s.net(Chan(KShare, v, Par(s, v)))[0].status == Delivered;
  }

  /** In a finished round the root has the Share of every child, and of nobody else. */
  lemma RootShares(c: Config, s: Sys, x: nat)
    requires Inv(c, s) && Finished(c, s) && x < c.n
    ensures x in s.hist[c.root].shares <==> ChildOf(c, s, x, c.root)
    ensures ChildOf(c, s, x, c.root) ==> HasShared(c, s, x) && s.hist[c.root].shares[x] == Extra(s, x)
  {
    assert NodeInv(c, s, x) && ChanInv(c, s, KShare, x, c.root);
    RootJoined(c, s);
    if x != c.root {
      DeliveredShare(c, s, x);
    }
  }

  /** How far the Shares of the root's children differ from what their subtrees have to give. */
  function RootWraps(c: Config, s: Sys): (r: seq<int>)
    requires |s.nodes| == |s.hist| == c.n
    ensures |r| == c.n
    ensures forall x :: 0 <= x < c.n ==> r[x] == if ChildOf(c, s, x, c.root) then Wrap(SubtreeSurplus(c, s, x)) else 0
  {
    seq(c.n, x requires 0 <= x < c.n => if ChildOf(c, s, x, c.root) then Wrap(SubtreeSurplus(c, s, x)) else 0)
  }

  lemma RootReceived(c: Config, s: Sys, x: nat)
    requires Inv(c, s) && TotalInv(c, s) && Finished(c, s) && x < c.n
    ensures ShareRow(s.hist[c.root].shares, c.n)[x] == RowSums(Under(c, s, c.root))[x] + RootWraps(c, s)[x]
  {
    RootShares(c, s, x);
    if ChildOf(c, s, x, c.root) {
      ClosedForm(c, s, x);
    } else {
      SumZero(UnderRow(c, s, c.root, x));
    }
  }

  /** What the root gained beyond everyone else's surplus. */
  function RootExcess(c: Config, s: Sys): int
    requires |s.nodes| == |s.hist| == c.n && c.root < c.n
  {
    HeadLoad(s.nodes[c.root]) - s.hist[c.root].start - Sum(Surplus(c, s, Common(c)))
  }

  /** Everyone but the root lies under a child of the root. */
  lemma CommonIsUnder(c: Config, s: Sys)
    requires Inv(c, s) && Finished(c, s)
    ensures Sum(Surplus(c, s, Common(c))) == Sum2(Under(c, s, c.root))
  {
    SubtreeSplit(c, s, c.root);
    AllUnderRoot(c, s);
    SumUpdate(Surplus(c, s, Subtree(c, s, c.root)), Surplus(c, s, Common(c)), c.root);
  }

  lemma AllUnderRoot(c: Config, s: Sys)
    requires Inv(c, s) && Finished(c, s)
    ensures var all, rest := Surplus(c, s, Subtree(c, s, c.root)), Surplus(c, s, Common(c));
            && all[c.root] == s.hist[c.root].start - 100 && rest[c.root] == 0
            && forall w :: 0 <= w < c.n && w != c.root ==> rest[w] == all[w]
  {
    forall w | 0 <= w < c.n
      ensures w in Subtree(c, s, c.root)
    {
      ThroughRoot(c, s, w);
    }
  }

  lemma RootTotal(c: Config, s: Sys)
    requires Inv(c, s) && TotalInv(c, s) && Finished(c, s)
    ensures Sum(ShareRow(s.hist[c.root].shares, c.n)) == Sum2(Under(c, s, c.root)) + Sum(RootWraps(c, s))
  {
    var got, due, off := ShareRow(s.hist[c.root].shares, c.n), RowSums(Under(c, s, c.root)), RootWraps(c, s);
    forall x | 0 <= x < c.n
      ensures got[x] == due[x] + off[x]
    {
      RootReceived(c, s, x);
    }
    SumAdd(due, off, got);
  }

  lemma RootBooks(c: Config, s: Sys)
    requires Inv(c, s) && TotalInv(c, s)
    ensures HeadLoad(s.nodes[c.root]) == s.hist[c.root].start + Sum(ShareRow(s.hist[c.root].shares, c.n))
  {
    RootJoined(c, s);
    NodeBooks(c, s, c.root);
    assert TotalOk(c, s, c.root);
  }

  /** The root is off by what the Shares of its children are off. */
  lemma RootGains(c: Config, s: Sys)
    requires Inv(c, s) && TotalInv(c, s) && Finished(c, s)
    ensures RootExcess(c, s) == Sum(RootWraps(c, s))
  {
    RootBooks(c, s);
    CommonIsUnder(c, s);
    RootTotal(c, s);
  }

  /** The surplus under each child of the root fits a `short`. */
  ghost predicate RootFits(c: Config, s: Sys)
    requires |s.nodes| == |s.hist| == c.n
  {
    forall x :: 0 <= x < c.n && ChildOf(c, s, x, c.root) ==> -32768 <= SubtreeSurplus(c, s, x) <= 32767
  }

  /**
   * What the root holds at the end, in networks of any size: its start load, everyone else's surplus,
   * and what the Shares of its children wrapped. That is a multiple of 2^16, and nothing if each
   * child's subtree fits a `short`, as it does up to 328 nodes.
   */
  ghost predicate RootAccounts(c: Config, s: Sys)
    requires |s.nodes| == |s.hist| == c.n && c.root < c.n
  {
    && RootExcess(c, s) == Sum(RootWraps(c, s))
    && RootExcess(c, s) % 65536 == 0
    && (RootFits(c, s) ==> RootExcess(c, s) == 0)
    && (c.n <= 328 ==> RootFits(c, s))
  }

  lemma RootWrapsSum(c: Config, s: Sys)
    requires |s.nodes| == |s.hist| == c.n
    ensures Sum(RootWraps(c, s)) % 65536 == 0
    ensures RootFits(c, s) ==> Sum(RootWraps(c, s)) == 0
  {
    var off := RootWraps(c, s);
    SumMod(off);
    if RootFits(c, s) {
      SumZero(off);
    }
  }

  lemma RootLoad(c: Config, s: Sys)
    requires Inv(c, s) && TotalInv(c, s) && Finished(c, s)
    ensures RootAccounts(c, s)
  {
    RootGains(c, s);
    RootWrapsSum(c, s);
    if c.n <= 328 {
      SmallRootFits(c, s);
    }
  }

  lemma SmallRootFits(c: Config, s: Sys)
    requires Inv(c, s) && TotalInv(c, s) && Finished(c, s) && c.n <= 328
    ensures RootFits(c, s)
  {
    forall x | 0 <= x < c.n && ChildOf(c, s, x, c.root)
      ensures -32768 <= SubtreeSurplus(c, s, x) <= 32767
    {
      RootShares(c, s, x);
      AllSubtreesSmall(c, s, x);
      SurplusBounds(c, s, x);
    }
  }
}
