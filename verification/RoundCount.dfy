/** How many messages a round takes, and that it ends. */
module RoundCount {
  import opened Sums
  import opened NodeModel
  import opened RoundLocal
  import opened Round
  import opened RoundInv
  import opened RoundTree
  import opened RoundSafety

  // ---- edges ----

  function Indicator(n: nat, s: set<nat>): (r: seq<int>)
    ensures |r| == n && forall v :: 0 <= v < n ==> r[v] == if v in s then 1 else 0
  {
    seq(n, v => if v in s then 1 else 0)
  }

  lemma IndicatorStep(n: nat, s: set<nat>, s': set<nat>)
    requires n > 0 && forall v: nat :: v < n - 1 ==> (v in s <==> v in s')
    ensures Sum(Indicator(n, s)) == Sum(Indicator(n - 1, s')) + if n - 1 in s then 1 else 0
  {
    assert Indicator(n, s)[..n - 1] == Indicator(n - 1, s');
  }

  lemma {:induction false} IndicatorSum(n: nat, s: set<nat>)
    requires forall v :: v in s ==> v < n
    ensures Sum(Indicator(n, s)) == |s|
  {
    if n == 0 {
      assert s == {};
      assert Indicator(0, s) == [];
    } else {
      var s' := s - {n - 1};
      IndicatorSum(n - 1, s');
      IndicatorStep(n, s, s');
      if n - 1 in s {
        AddOne(s', s, n - 1);
      } else {
        assert s' == s;
      }
    }
  }

  function Degrees(c: Config): (r: seq<int>)
    requires |c.nbrs| == c.n
    ensures |r| == c.n && forall v :: 0 <= v < c.n ==> r[v] == |c.nbrs[v]|
  {
    seq(c.n, v requires 0 <= v < c.n => |c.nbrs[v]|)
  }

  predicate Linked(c: Config, u: nat, v: nat)
    requires |c.nbrs| == c.n
  {
    u < c.n && v in c.nbrs[u]
  }

  /** 1 for each adjacent pair with u < v (or v < u, or either). */
  function PairRow(c: Config, u: nat, up: bool, down: bool): (r: seq<int>)
    requires |c.nbrs| == c.n
    ensures |r| == c.n
    ensures forall v :: 0 <= v < c.n ==> r[v] == if Linked(c, u, v) && ((up && u < v) || (down && v < u)) then 1 else 0
  {
    seq(c.n, v requires 0 <= v < c.n => if Linked(c, u, v) && ((up && u < v) || (down && v < u)) then 1 else 0)
  }

  function Pairs(c: Config, up: bool, down: bool): (m: seq<seq<int>>)
    requires |c.nbrs| == c.n
    ensures |m| == c.n && forall u :: 0 <= u < c.n ==> m[u] == PairRow(c, u, up, down)
  {
    seq(c.n, u requires 0 <= u < c.n => PairRow(c, u, up, down))
  }

  /** The number of edges: adjacent pairs u < v. */
  function Edges(c: Config): int
    requires |c.nbrs| == c.n
  {
    Sum2(Pairs(c, true, false))
  }

  /** The degrees add up to twice the edges. */
  lemma Handshake(c: Config)
    requires ConfigOk(c)
    ensures Sum(Degrees(c)) == 2 * Edges(c)
  {
    var up, down := Pairs(c, true, false), Pairs(c, false, true);
    forall u | 0 <= u < c.n
      ensures Degrees(c)[u] == RowSums(up)[u] + RowSums(down)[u]
    {
      DegreeSplits(c, u);
    }
    SumAdd(RowSums(up), RowSums(down), Degrees(c));
    PairsMirror(c);
    SumSwap(down, up, c.n, c.n);
  }

  /** A degree counts the neighbours above and those below. */
  lemma DegreeSplits(c: Config, u: nat)
    requires ConfigOk(c) && u < c.n
    ensures Degrees(c)[u] == Sum(PairRow(c, u, true, false)) + Sum(PairRow(c, u, false, true))
  {
    assert TableOk(c, u);
    NbCount(c, u);
    IndicatorSum(c.n, NbSet(c, u));
    SumAdd(PairRow(c, u, true, false), PairRow(c, u, false, true), Indicator(c.n, NbSet(c, u)));
  }

  lemma PairsMirror(c: Config)
    requires ConfigOk(c)
    ensures forall u, v :: 0 <= u < c.n && 0 <= v < c.n ==> Pairs(c, false, true)[u][v] == Pairs(c, true, false)[v][u]
  {
    forall u, v | 0 <= u < c.n && 0 <= v < c.n
      ensures Pairs(c, false, true)[u][v] == Pairs(c, true, false)[v][u]
    {
      assert u in c.nbrs[v] <==> v in c.nbrs[u];
    }
  }

  // ---- messages sent ----

  function CountRow(c: Config, s: Sys, k: Kind, u: nat): (r: seq<int>)
    ensures |r| == c.n && forall v :: 0 <= v < c.n ==> r[v] == |s.net(Chan(k, u, v))|
  {
    seq(c.n, v requires 0 <= v < c.n => |s.net(Chan(k, u, v))|)
  }

  function Counts(c: Config, s: Sys, k: Kind): (m: seq<int>)
    ensures |m| == c.n && forall u :: 0 <= u < c.n ==> m[u] == Sum(CountRow(c, s, k, u))
  {
    seq(c.n, u requires 0 <= u < c.n => Sum(CountRow(c, s, k, u)))
  }

  /** Messages of kind `k` sent so far. */
  function SentOf(c: Config, s: Sys, k: Kind): int { Sum(Counts(c, s, k)) }

  function Sent(c: Config, s: Sys): int { SentOf(c, s, KSet) + SentOf(c, s, KLoad) + SentOf(c, s, KShare) }

  /** Whom a node sends its SetHLMACs: every neighbour but the parent. */
  function SetTargets(c: Config, s: Sys, u: nat): set<nat>
    requires u < |s.nodes| == |s.hist| == |c.nbrs|
  {
    if !J(c, s, u) then {} else if u == c.root then NbSet(c, u) else NbSet(c, u) - {Par(s, u)}
  }

  lemma RowIsTargets(c: Config, s: Sys, u: nat)
    requires Inv(c, s) && u < c.n
    ensures CountRow(c, s, KSet, u) == Indicator(c.n, SetTargets(c, s, u))
    ensures forall v :: v in SetTargets(c, s, u) ==> v < c.n
  {
    assert TableOk(c, u) && NodeInv(c, s, u);
    forall v | 0 <= v < c.n
      ensures CountRow(c, s, KSet, u)[v] == Indicator(c.n, SetTargets(c, s, u))[v]
    {
      assert ChanInv(c, s, KSet, u, v);
    }
  }

  lemma RowSet(c: Config, s: Sys, u: nat)
    requires Inv(c, s) && u < c.n
    ensures Sum(CountRow(c, s, KSet, u)) == if !J(c, s, u) then 0 else |c.nbrs[u]| - if u == c.root then 0 else 1
  {
    RowIsTargets(c, s, u);
    IndicatorSum(c.n, SetTargets(c, s, u));
    NbCount(c, u);
    if J(c, s, u) && u != c.root {
      ParentFacts(c, s, u);
      AddOne(SetTargets(c, s, u), NbSet(c, u), Par(s, u));
    }
  }

  predicate SentUp(c: Config, s: Sys, k: Kind, u: nat)
    requires u < |s.nodes|
  {
    J(c, s, u) && u != c.root && if k == KLoad then s.nodes[u].sentLoad else s.nodes[u].sentShare
  }

  function UpTargets(c: Config, s: Sys, k: Kind, u: nat): set<nat>
    requires u < |s.nodes| == |s.hist|
  {
    if SentUp(c, s, k, u) then {Par(s, u)} else {}
  }

  lemma RowIsUpTargets(c: Config, s: Sys, k: Kind, u: nat)
    requires Inv(c, s) && u < c.n && k != KSet
    ensures CountRow(c, s, k, u) == Indicator(c.n, UpTargets(c, s, k, u))
    ensures forall v :: v in UpTargets(c, s, k, u) ==> v < c.n
  {
    assert NodeInv(c, s, u);
    if SentUp(c, s, k, u) {
      ParentFacts(c, s, u);
    }
    forall v | 0 <= v < c.n
      ensures CountRow(c, s, k, u)[v] == Indicator(c.n, UpTargets(c, s, k, u))[v]
    {
      assert ChanInv(c, s, k, u, v);
    }
  }

  /** A joined common node sends at most one Load and one Share. */
  lemma RowUp(c: Config, s: Sys, k: Kind, u: nat)
    requires Inv(c, s) && u < c.n && k != KSet
    ensures Sum(CountRow(c, s, k, u)) == if SentUp(c, s, k, u) then 1 else 0
  {
    RowIsUpTargets(c, s, k, u);
    IndicatorSum(c.n, UpTargets(c, s, k, u));
  }

  function Common(c: Config): (r: set<nat>)
  {
    Range(c.n) - {c.root}
  }

  lemma CommonSum(c: Config)
    requires ConfigOk(c)
    ensures Sum(Indicator(c.n, Common(c))) == c.n - 1
  {
    IndicatorSum(c.n, Common(c));
    AddOne(Common(c), Range(c.n), c.root);
  }

  function Negated(a: seq<int>): (r: seq<int>)
    ensures |r| == |a| && forall i :: 0 <= i < |a| ==> r[i] == -a[i]
  {
    seq(|a|, i requires 0 <= i < |a| => -a[i])
  }

  lemma {:induction false} NegatedSum(a: seq<int>)
    ensures Sum(Negated(a)) == -Sum(a)
  {
    if a != [] {
      NegatedSum(a[..|a| - 1]);
      assert Negated(a)[..|a| - 1] == Negated(a[..|a| - 1]);
    }
  }

  lemma FinishedRow(c: Config, s: Sys, u: nat)
    requires Inv(c, s) && Finished(c, s) && u < c.n
    ensures Counts(c, s, KSet)[u] == |c.nbrs[u]| - if u == c.root then 0 else 1
    ensures Counts(c, s, KLoad)[u] == Counts(c, s, KShare)[u] == if u == c.root then 0 else 1
  {
    RowSet(c, s, u);
    RowUp(c, s, KLoad, u);
    RowUp(c, s, KShare, u);
  }

  lemma AnyRow(c: Config, s: Sys, u: nat)
    requires Inv(c, s) && u < c.n
    ensures Counts(c, s, KSet)[u] + Counts(c, s, KLoad)[u] + Counts(c, s, KShare)[u] <= |c.nbrs[u]| + if u == c.root then 0 else 1
  {
    RowSet(c, s, u);
    RowUp(c, s, KLoad, u);
    RowUp(c, s, KShare, u);
  }

  /** A finished round took 2|E| - (n-1) SetHLMACs, n-1 Loads and n-1 Shares. */
  lemma FinishedCounts(c: Config, s: Sys)
    requires Inv(c, s) && Finished(c, s)
    ensures SentOf(c, s, KSet) == 2 * Edges(c) - (c.n - 1)
    ensures SentOf(c, s, KLoad) == c.n - 1 && SentOf(c, s, KShare) == c.n - 1
    ensures Sent(c, s) == 2 * Edges(c) + (c.n - 1)
  {
    var ind := Indicator(c.n, Common(c));
    Handshake(c);
    CommonSum(c);
    NegatedSum(ind);
    FinishedSets(c, s);
    FinishedUpward(c, s);
    SumAdd(Degrees(c), Negated(ind), Counts(c, s, KSet));
  }

  lemma FinishedSets(c: Config, s: Sys)
    requires Inv(c, s) && Finished(c, s)
    ensures forall u :: 0 <= u < c.n ==> Counts(c, s, KSet)[u] == Degrees(c)[u] + Negated(Indicator(c.n, Common(c)))[u]
  {
    forall u | 0 <= u < c.n
      ensures Counts(c, s, KSet)[u] == Degrees(c)[u] + Negated(Indicator(c.n, Common(c)))[u]
    {
      FinishedRow(c, s, u);
    }
  }

  lemma FinishedUpward(c: Config, s: Sys)
    requires Inv(c, s) && Finished(c, s)
    ensures Counts(c, s, KLoad) == Indicator(c.n, Common(c)) == Counts(c, s, KShare)
  {
    forall u | 0 <= u < c.n
      ensures Counts(c, s, KLoad)[u] == Indicator(c.n, Common(c))[u] == Counts(c, s, KShare)[u]
    {
      FinishedRow(c, s, u);
    }
  }

  /** At no time have more been sent. */
  lemma SentBound(c: Config, s: Sys)
    requires Inv(c, s)
    ensures Sent(c, s) <= 2 * Edges(c) + (c.n - 1)
  {
    RowsBelow(c, s);
    SumThree(Counts(c, s, KSet), Counts(c, s, KLoad), Counts(c, s, KShare), RowBounds(c));
    RowBoundsSum(c);
  }

  lemma RowBoundsSum(c: Config)
    requires ConfigOk(c)
    ensures Sum(RowBounds(c)) == 2 * Edges(c) + (c.n - 1)
  {
    Handshake(c);
    CommonSum(c);
    SumAdd(Degrees(c), Indicator(c.n, Common(c)), RowBounds(c));
  }

  /** What a node sends at most: its degree, and one more if it is a common node. */
  function RowBounds(c: Config): (r: seq<int>)
    requires |c.nbrs| == c.n
    ensures |r| == c.n && forall u :: 0 <= u < c.n ==> r[u] == Degrees(c)[u] + Indicator(c.n, Common(c))[u]
  {
    seq(c.n, u requires 0 <= u < c.n => Degrees(c)[u] + Indicator(c.n, Common(c))[u])
  }

  lemma RowsBelow(c: Config, s: Sys)
    requires Inv(c, s)
    ensures forall u :: 0 <= u < c.n ==> Counts(c, s, KSet)[u] + Counts(c, s, KLoad)[u] + Counts(c, s, KShare)[u] <= RowBounds(c)[u]
  {
    forall u | 0 <= u < c.n
      ensures Counts(c, s, KSet)[u] + Counts(c, s, KLoad)[u] + Counts(c, s, KShare)[u] <= RowBounds(c)[u]
    {
      AnyRow(c, s, u);
    }
  }

  // ---- messages taken off the network ----

  function TakenIn(cs: seq<Cell>): (r: int)
    ensures 0 <= r <= |cs|
  {
    if cs == [] then 0 else TakenIn(cs[..|cs| - 1]) + if cs[|cs| - 1].status == InFlight then 0 else 1
  }

  lemma {:induction false} TakenFresh(cs: seq<Cell>, added: seq<Cell>)
    requires forall i :: 0 <= i < |added| ==> added[i].status == InFlight
    ensures TakenIn(cs + added) == TakenIn(cs)
  {
    if added == [] {
      assert cs + added == cs;
    } else {
      TakenFresh(cs, added[..|added| - 1]);
      assert (cs + added)[..|cs + added| - 1] == cs + added[..|added| - 1];
    }
  }

  lemma {:induction false} TakenSettled(cs: seq<Cell>, j: nat, status: Status)
    requires j < |cs| && cs[j].status == InFlight && status != InFlight
    ensures TakenIn(cs[j := cs[j].(status := status)]) == TakenIn(cs) + 1
  {
    var l := |cs| - 1;
    var cs' := cs[j := cs[j].(status := status)];
    if j == l {
      assert cs'[..l] == cs[..l];
    } else {
      TakenSettled(cs[..l], j, status);
      assert cs'[..l] == cs[..l][j := cs[j].(status := status)];
    }
  }

  function TakenPair(s: Sys, u: nat, v: nat): int
  {
    TakenIn(s.net(Chan(KSet, u, v))) + TakenIn(s.net(Chan(KLoad, u, v))) + TakenIn(s.net(Chan(KShare, u, v)))
  }

  function TakenRow(c: Config, s: Sys, u: nat): (r: seq<int>)
    ensures |r| == c.n && forall v :: 0 <= v < c.n ==> r[v] == TakenPair(s, u, v)
  {
    seq(c.n, v requires 0 <= v < c.n => TakenPair(s, u, v))
  }

  function TakenMatrix(c: Config, s: Sys): (m: seq<seq<int>>)
    ensures |m| == c.n && forall u :: 0 <= u < c.n ==> m[u] == TakenRow(c, s, u)
  {
    seq(c.n, u requires 0 <= u < c.n => TakenRow(c, s, u))
  }

  /** Messages delivered or lost so far. */
  function Taken(c: Config, s: Sys): int { Sum2(TakenMatrix(c, s)) }

  lemma PairTakes(c: Config, s: Sys, e: Event, u: nat, v: nat)
    requires |s.nodes| == |s.hist| == c.n && Enabled(c, s, e)
    ensures TakenPair(Step(c, s, e), u, v) == TakenPair(s, u, v) + if u == e.ch.src && v == e.ch.dst then 1 else 0
  {
    TakenChan(c, s, e, Chan(KSet, u, v));
    TakenChan(c, s, e, Chan(KLoad, u, v));
    TakenChan(c, s, e, Chan(KShare, u, v));
    assert e.ch == Chan(e.ch.kind, e.ch.src, e.ch.dst);
    assert e.ch.kind == KSet || e.ch.kind == KLoad || e.ch.kind == KShare;
  }

  lemma RowTakes(c: Config, s: Sys, e: Event, u: nat)
    requires |s.nodes| == |s.hist| == c.n && Enabled(c, s, e) && u < c.n
    ensures Sum(TakenRow(c, Step(c, s, e), u)) == Sum(TakenRow(c, s, u)) + if u == e.ch.src then 1 else 0
  {
    var row, row' := TakenRow(c, s, u), TakenRow(c, Step(c, s, e), u);
    forall v | 0 <= v < c.n
      ensures row'[v] == row[v] + if u == e.ch.src && v == e.ch.dst then 1 else 0
    {
      PairTakes(c, s, e, u, v);
    }
    SumUpdate(row, row', e.ch.dst);
  }

  /** Every step takes exactly one message. */
  lemma StepTakes(c: Config, s: Sys, e: Event)
    requires |s.nodes| == |s.hist| == c.n && Enabled(c, s, e)
    ensures Taken(c, Step(c, s, e)) == Taken(c, s) + 1
  {
    var m, m' := RowSums(TakenMatrix(c, s)), RowSums(TakenMatrix(c, Step(c, s, e)));
    forall u | 0 <= u < c.n
      ensures m'[u] == m[u] + if u == e.ch.src then 1 else 0
    {
      RowTakes(c, s, e, u);
    }
    SumUpdate(m, m', e.ch.src);
  }

  lemma TakenChan(c: Config, s: Sys, e: Event, ch: Chan)
    requires |s.nodes| == |s.hist| == c.n && Enabled(c, s, e)
    ensures TakenIn(Step(c, s, e).net(ch)) == TakenIn(s.net(ch)) + if ch == e.ch then 1 else 0
  {
    var status := if e.Lose? then Lost else Delivered;
    var mid := Settle(s.net, e.ch, e.j, status);
    if ch == e.ch {
      TakenSettled(s.net(ch), e.j, status);
    }
    if e.Deliver? {
      var outs := React(s.nodes[e.ch.dst], e.ch.src, s.net(e.ch)[e.j].msg, e.draw).outs;
      TakenFresh(mid(ch), Fresh(To(outs, ch.kind, ch.dst)));
    }
  }

  lemma TakenRowBound(c: Config, s: Sys, u: nat)
    requires u < c.n
    ensures Sum(TakenRow(c, s, u)) <= Counts(c, s, KSet)[u] + Counts(c, s, KLoad)[u] + Counts(c, s, KShare)[u]
  {
    var x, y, z := CountRow(c, s, KSet, u), CountRow(c, s, KLoad, u), CountRow(c, s, KShare, u);
    var xy := seq(c.n, v requires 0 <= v < c.n => x[v] + y[v]);
    var xyz := seq(c.n, v requires 0 <= v < c.n => xy[v] + z[v]);
    SumAdd(x, y, xy);
    SumAdd(xy, z, xyz);
    SumMonotone(TakenRow(c, s, u), xyz);
  }

  lemma TakenBound(c: Config, s: Sys)
    ensures Taken(c, s) <= Sent(c, s)
  {
    var a, b, d := Counts(c, s, KSet), Counts(c, s, KLoad), Counts(c, s, KShare);
    var ab := seq(c.n, u requires 0 <= u < c.n => a[u] + b[u]);
    var abd := seq(c.n, u requires 0 <= u < c.n => ab[u] + d[u]);
    forall u | 0 <= u < c.n
      ensures RowSums(TakenMatrix(c, s))[u] <= abd[u]
    {
      TakenRowBound(c, s, u);
    }
    SumAdd(a, b, ab);
    SumAdd(ab, d, abd);
    SumMonotone(RowSums(TakenMatrix(c, s)), abd);
  }

  lemma BeginTakes(c: Config, nodes: seq<Node>, draw: int)
    requires ReadyFor(c, nodes)
    ensures Taken(c, Begin(c, nodes, draw)) == 0
  {
    var s := Begin(c, nodes, draw);
    var outs := OnRootTimer(nodes[c.root], draw).outs;
    forall u | 0 <= u < c.n
      ensures RowSums(TakenMatrix(c, s))[u] == 0
    {
      forall v | 0 <= v < c.n
        ensures TakenRow(c, s, u)[v] == 0
      {
        TakenFresh([], Fresh(To(outs, KSet, v)));
        TakenFresh([], Fresh(To(outs, KLoad, v)));
        TakenFresh([], Fresh(To(outs, KShare, v)));
      }
      SumZero(TakenRow(c, s, u));
    }
    SumZero(RowSums(TakenMatrix(c, s)));
  }

  lemma StepTakesOne(c: Config, s: Sys, s': Sys)
    requires IsStep(c, s, s')
    ensures Taken(c, s') == Taken(c, s) + 1
  {
    var e :| Enabled(c, s, e) && s' == Step(c, s, e);
    StepTakes(c, s, e);
  }

  lemma TakesNext(c: Config, run: seq<Sys>, i: nat)
    requires AllSteps(c, run) && i + 1 < |run|
    ensures Taken(c, run[i + 1]) == Taken(c, run[i]) + 1
  {
    NextStep(c, run, i);
    StepTakesOne(c, run[i], run[i + 1]);
  }

  lemma {:induction false} TakesFrom(c: Config, run: seq<Sys>, i: nat)
    requires AllSteps(c, run) && i < |run|
    ensures Taken(c, run[i]) == Taken(c, run[0]) + i
  {
    if i > 0 {
      TakesFrom(c, run, i - 1);
      TakesNext(c, run, i - 1);
    }
  }

  lemma RunTakes(c: Config, run: seq<Sys>, i: nat)
    requires IsRun(c, run) && i < |run|
    ensures Taken(c, run[i]) == i
  {
    var nodes, draw := RunStart(c, run);
    BeginTakes(c, nodes, draw);
    TakesFrom(c, run, i);
  }

  /** A round ends: no run has more steps than messages, and those are bounded by the graph. */
  lemma RunLength(c: Config, run: seq<Sys>)
    requires IsRun(c, run) && c.nbrs[c.root] != []
    ensures |run| - 1 <= 2 * Edges(c) + (c.n - 1)
  {
    var l := |run| - 1;
    RunTakes(c, run, l);
    RunInv(c, run, l);
    TakenBound(c, run[l]);
    SentBound(c, run[l]);
  }
}
