/** What convergence means, what stops a round, and what the counters say. */
module RoundSafety {
  import opened Types
  import opened HlmacAddr
  import opened NodeModel
  import opened RoundLocal
  import opened Round
  import opened RoundInv
  import opened RoundTree

  /** Consecutive nodes of `p` are neighbours. */
  ghost predicate IsPath(c: Config, p: seq<nat>)
    requires ConfigOk(c)
  {
    && (forall i :: 0 <= i < |p| ==> p[i] < c.n)
    && forall i :: 0 < i < |p| ==> Hop(c, p, i)
  }

  ghost predicate Hop(c: Config, p: seq<nat>, i: nat)
    requires ConfigOk(c) && 0 < i < |p| && forall i :: 0 <= i < |p| ==> p[i] < c.n
  {
    p[i] in c.nbrs[p[i - 1]]
  }

  ghost predicate PathTo(c: Config, p: seq<nat>, v: nat)
    requires ConfigOk(c)
  {
    IsPath(c, p) && p != [] && p[0] == c.root && p[|p| - 1] == v
  }

  /** Every node can be reached from the root. */
  ghost predicate Connected(c: Config)
    requires ConfigOk(c)
  {
    forall v :: 0 <= v < c.n ==> Reachable(c, v)
  }

  ghost predicate Reachable(c: Config, v: nat)
    requires ConfigOk(c)
  {
    exists p :: PathTo(c, p, v)
  }

  /** A node that awaits nobody. */
  predicate Done(s: Sys, v: nat)
    requires v < |s.nodes|
  {
    s.nodes[v].hijosLoad == 0 && s.nodes[v].hijosShare == 0
  }

  lemma FullSubset(a: set<LinkId>, b: set<LinkId>)
    requires a <= b && |a| == |b|
    ensures a == b
  {
    assert b == a + (b - a);
  }

  /** Who has assigned an address or, by kind, reported. */
  function HeardBy(h: Hist, k: Kind): set<LinkId>
  {
    h.given.Keys + if k == KShare then h.shares.Keys else h.loads.Keys
  }

  lemma AllIn(l: set<LinkId>, nb: set<LinkId>)
    requires l <= nb
    ensures |l| == |nb| <==> forall u :: u in nb ==> u in l
  {
    if |l| == |nb| {
      FullSubset(l, nb);
    }
    if forall u :: u in nb ==> u in l {
      assert l == nb;
    }
  }

  /** The counters in terms of the record. */
  lemma RecordCounts(c: Config, s: Sys, v: nat)
    requires Inv(c, s) && v < c.n && J(c, s, v)
    ensures var h := s.hist[v];
            && s.nodes[v].hijosLoad == |c.nbrs[v]| - h.nLoad && s.nodes[v].hijosShare == |c.nbrs[v]| - h.nShare
            && CardInv(h, A(s, v), NbSet(c, v))
            && (v != c.root ==> s.nodes[v].nbrsFlag == |c.nbrs[v]| - h.nOutside && (s.nodes[v].edge <==> s.nodes[v].nbrsFlag == 0))
  {
    assert NodeInv(c, s, v);
  }

  lemma HeardByCount(h: Hist, mine: Addr, nb: set<LinkId>)
    requires CardInv(h, mine, nb)
    ensures h.nLoad == |HeardBy(h, KLoad)| && h.nShare == |HeardBy(h, KShare)|
    ensures HeardBy(h, KLoad) <= nb && HeardBy(h, KShare) <= nb && Outside(h, mine) <= nb
  {
    UnionIn(h.given.Keys, h.loads.Keys, nb);
    UnionIn(h.given.Keys, h.shares.Keys, nb);
    OutsideIsGiven(h, mine);
  }

  lemma UnionIn(a: set<LinkId>, b: set<LinkId>, nb: set<LinkId>)
    requires a <= nb && b <= nb
    ensures a + b <= nb
  {
  }

  lemma OutsideIsGiven(h: Hist, mine: Addr)
    ensures Outside(h, mine) <= h.given.Keys
  {
  }

  lemma NbCount(c: Config, v: nat)
    requires ConfigOk(c) && v < c.n
    ensures |NbSet(c, v)| == |c.nbrs[v]|
  {
    assert TableOk(c, v);
    SetCard(c.nbrs[v]);
  }

  /** The counters in terms of the neighbours heard. */
  lemma CountersCount(c: Config, s: Sys, v: nat)
    requires Inv(c, s) && v < c.n && J(c, s, v)
    ensures s.nodes[v].hijosLoad == |NbSet(c, v)| - |HeardBy(s.hist[v], KLoad)|
    ensures s.nodes[v].hijosShare == |NbSet(c, v)| - |HeardBy(s.hist[v], KShare)|
    ensures HeardBy(s.hist[v], KLoad) <= NbSet(c, v) && HeardBy(s.hist[v], KShare) <= NbSet(c, v)
  {
    RecordCounts(c, s, v);
    HeardByCount(s.hist[v], A(s, v), NbSet(c, v));
    NbCount(c, v);
  }

  /** Nobody is awaited exactly when everybody has been heard. */
  lemma DoneMeansHeard(c: Config, s: Sys, v: nat)
    requires Inv(c, s) && v < c.n && J(c, s, v)
    ensures s.nodes[v].hijosLoad == 0 <==> forall u :: u in c.nbrs[v] ==> Heard(c, s, KSet, u, v) || Heard(c, s, KLoad, u, v)
    ensures s.nodes[v].hijosShare == 0 <==> forall u :: u in c.nbrs[v] ==> Heard(c, s, KSet, u, v) || Heard(c, s, KShare, u, v)
  {
    CountersCount(c, s, v);
    AllIn(HeardBy(s.hist[v], KLoad), NbSet(c, v));
    AllIn(HeardBy(s.hist[v], KShare), NbSet(c, v));
    HeardByMeans(c, s, v, KLoad);
    HeardByMeans(c, s, v, KShare);
  }

  lemma HeardByMeans(c: Config, s: Sys, v: nat, k: Kind)
    requires |s.nodes| == |s.hist| == |c.nbrs| && v < |s.nodes| && J(c, s, v) && k != KSet
    ensures forall u :: (u in NbSet(c, v) <==> u in c.nbrs[v]) && (u in HeardBy(s.hist[v], k) <==> Heard(c, s, KSet, u, v) || Heard(c, s, k, u, v))
  {
  }

  /** The neighbours that neither assigned an address nor reported. */
  ghost function Awaited(c: Config, s: Sys, v: nat, k: Kind): set<LinkId>
    requires v < |s.nodes| == |s.hist| == |c.nbrs|
  {
    set u | u in c.nbrs[v] && !Heard(c, s, KSet, u, v) && !Heard(c, s, k, u, v)
  }

  /** Counter exactness. */
  lemma CountersExact(c: Config, s: Sys, v: nat)
    requires Inv(c, s) && v < c.n && J(c, s, v)
    ensures s.nodes[v].hijosLoad == |Awaited(c, s, v, KLoad)|
    ensures s.nodes[v].hijosShare == |Awaited(c, s, v, KShare)|
  {
    CountersCount(c, s, v);
    AwaitedIs(c, s, v, KLoad);
    AwaitedIs(c, s, v, KShare);
    DifferenceCard(HeardBy(s.hist[v], KLoad), NbSet(c, v));
    DifferenceCard(HeardBy(s.hist[v], KShare), NbSet(c, v));
  }

  lemma AwaitedIs(c: Config, s: Sys, v: nat, k: Kind)
    requires |s.nodes| == |s.hist| == |c.nbrs| && v < |s.nodes| && J(c, s, v) && k != KSet
    ensures Awaited(c, s, v, k) == NbSet(c, v) - HeardBy(s.hist[v], k)
  {
  }

  lemma DifferenceCard(a: set<LinkId>, b: set<LinkId>)
    requires a <= b
    ensures |b - a| == |b| - |a|
  {
    assert b == a + (b - a);
  }

  /** Exactly one neighbour of a joined common node, its parent, has flag 1. */
  lemma OneParentFlag(c: Config, s: Sys, v: nat, i: nat)
    requires Inv(c, s) && v < c.n && J(c, s, v) && v != c.root && i < |c.nbrs[v]|
    ensures i < |s.nodes[v].nbrs| && s.nodes[v].nbrs[i].addr == c.nbrs[v][i]
    ensures s.nodes[v].nbrs[i].flag == 1 <==> c.nbrs[v][i] == Par(s, v)
    ensures Par(s, v) in c.nbrs[v]
  {
    assert NodeInv(c, s, v);
  }

  /** The address `u` gave `v` runs through `v` if and only if that of `u` does. */
  lemma GiftThrough(c: Config, s: Sys, u: nat, v: nat)
    requires Inv(c, s) && u < c.n && v < c.n && u != v && Heard(c, s, KSet, u, v)
    ensures J(c, s, u) && u in s.hist[v].given
    ensures ProperPrefix(A(s, v), s.hist[v].given[u]) <==> A(s, v) <= A(s, u)
  {
    assert ChanInv(c, s, KSet, u, v);
    var a, mine := s.hist[v].given[u], A(s, v);
    assert a == A(s, u) + [a[|a| - 1]];
    if mine <= a && |mine| < |a| {
      assert mine == a[..|mine|] == A(s, u)[..|mine|];
    }
  }

  lemma FlagIs(c: Config, s: Sys, v: nat, i: nat)
    requires Inv(c, s) && v < c.n && J(c, s, v) && i < |c.nbrs[v]|
    ensures i < |s.nodes[v].nbrs| && c.nbrs[v][i] < c.n && c.nbrs[v][i] != v
    ensures s.nodes[v].nbrs[i].flag == FlagOf(v == c.root, A(s, v), c.ts, s.hist[v], c.nbrs[v][i])
    ensures v != c.root ==> Par(s, v) in s.hist[v].given
  {
    assert NodeInv(c, s, v) && TableOk(c, v);
  }

  /** Every address runs through the root. */
  lemma ThroughRoot(c: Config, s: Sys, u: nat)
    requires Inv(c, s) && u < c.n && J(c, s, u)
    ensures A(s, c.root) <= A(s, u)
  {
    RootJoined(c, s);
    RootAddr(c, s);
    AddrNonEmpty(c, s, u);
    var x := Ancestor(c, s, u, 1);
    OneIdIsRoot(c, s, x);
  }

  /**
   * The flag of every neighbour of a joined node: 1 for the parent, -1 for a neighbour whose
   * address came in and does not run through this node, 0 for all others. At the root every address
   * runs through it, but last_timestamp stays 0: there -1 stands for any address after round 0.
   */
  lemma FlagsExact(c: Config, s: Sys, v: nat, i: nat)
    requires Inv(c, s) && v < c.n && J(c, s, v) && i < |c.nbrs[v]|
    ensures i < |s.nodes[v].nbrs| && c.nbrs[v][i] < c.n
    ensures var u, flag := c.nbrs[v][i], s.nodes[v].nbrs[i].flag;
            && (flag == 1 <==> v != c.root && u == Par(s, v))
            && (flag == -1 <==> Heard(c, s, KSet, u, v) && if v == c.root then c.ts > 0 else u != Par(s, v) && !(A(s, v) <= A(s, u)))
            && (flag == 1 || flag == -1 || flag == 0)
  {
    FlagIs(c, s, v, i);
    var u := c.nbrs[v][i];
    if Heard(c, s, KSet, u, v) {
      GiftThrough(c, s, u, v);
      ThroughRoot(c, s, u);
    }
  }

  /** A node that is done has only joined neighbours, and its children are done. */
  lemma DoneSpreads(c: Config, s: Sys, v: nat, u: nat)
    requires Inv(c, s) && v < c.n && J(c, s, v) && Done(s, v) && u in c.nbrs[v]
    ensures u < c.n && J(c, s, u)
    ensures ChildOf(c, s, u, v) ==> Done(s, u)
  {
    DoneMeansHeard(c, s, v);
    assert TableOk(c, v);
    assert ChanInv(c, s, KSet, u, v) && ChanInv(c, s, KLoad, u, v) && ChanInv(c, s, KShare, u, v);
    assert Said(c, s, KSet, u, v) || Said(c, s, KLoad, u, v);
    assert NodeInv(c, s, u);
  }

  /** From the root, being done reaches every joined node. */
  lemma {:induction false} AllDone(c: Config, s: Sys, v: nat)
    requires Inv(c, s) && Done(s, c.root) && v < c.n && J(c, s, v)
    ensures Done(s, v)
    decreases |A(s, v)|
  {
    if v != c.root {
      ParentFacts(c, s, v);
      AllDone(c, s, Par(s, v));
      DoneSpreads(c, s, Par(s, v), v);
    }
  }

  /** ... and along any path every node has joined. */
  lemma {:induction false} PathJoined(c: Config, s: Sys, p: seq<nat>, i: nat)
    requires Inv(c, s) && Done(s, c.root) && IsPath(c, p) && i < |p| && p[0] == c.root
    ensures J(c, s, p[i])
  {
    if i == 0 {
      RootJoined(c, s);
    } else {
      PathJoined(c, s, p, i - 1);
      assert Hop(c, p, i);
      AllDone(c, s, p[i - 1]);
      DoneSpreads(c, s, p[i - 1], p[i]);
    }
  }

  /** The outcome the root announces with has_converged. */
  ghost predicate Finished(c: Config, s: Sys)
    requires |s.nodes| == |s.hist| == c.n
  {
    && (forall v :: 0 <= v < c.n ==> J(c, s, v))
    && (forall v :: 0 <= v < c.n && v != c.root ==>
          s.nodes[v].sentLoad && s.nodes[v].sentShare && HeadLoad(s.nodes[v]) == 100)
    && forall k, u, v, i :: 0 <= u < c.n && 0 <= v < c.n && 0 <= i < |s.net(Chan(k, u, v))| ==>
         s.net(Chan(k, u, v))[i].status == Delivered
  }

  /** Who speaks to `v` is a neighbour of `v`. */
  lemma SpeaksIsNbr(c: Config, s: Sys, k: Kind, u: nat, v: nat)
    requires Inv(c, s) && u < c.n && v < c.n && Said(c, s, k, u, v)
    ensures u in c.nbrs[v]
  {
    assert NodeInv(c, s, u) && TableOk(c, u);
    if k != KSet {
      ParentFacts(c, s, u);
    }
  }

  /** A message to a node that is done has been delivered. */
  lemma DoneDelivered(c: Config, s: Sys, k: Kind, u: nat, v: nat, i: nat)
    requires Inv(c, s) && u < c.n && v < c.n && i < |s.net(Chan(k, u, v))| && J(c, s, v) && Done(s, v)
    ensures s.net(Chan(k, u, v))[i].status == Delivered
  {
    assert ChanInv(c, s, k, u, v);
    SpeaksIsNbr(c, s, k, u, v);
    DoneMeansHeard(c, s, v);
    if k == KSet {
      assert ChanInv(c, s, KLoad, u, v);
    } else {
      assert ChanInv(c, s, KSet, u, v);
    }
  }

  lemma AllJoinedDone(c: Config, s: Sys, v: nat)
    requires Inv(c, s) && Connected(c) && Done(s, c.root) && v < c.n
    ensures J(c, s, v) && Done(s, v)
  {
    assert Reachable(c, v);
    var p :| PathTo(c, p, v);
    PathJoined(c, s, p, |p| - 1);
    AllDone(c, s, v);
  }

  /** Soundness of termination detection: under delay, reordering and loss, convergence at the root means the round is over everywhere. */
  lemma ConvergedIsFinished(c: Config, s: Sys)
    requires Inv(c, s) && Connected(c) && s.nodes[c.root].hasConverged
    ensures Finished(c, s)
  {
    assert NodeInv(c, s, c.root);
    forall v | 0 <= v < c.n
      ensures J(c, s, v) && Done(s, v)
    {
      AllJoinedDone(c, s, v);
    }
    forall v | 0 <= v < c.n && v != c.root
      ensures s.nodes[v].sentLoad && s.nodes[v].sentShare && HeadLoad(s.nodes[v]) == 100
    {
      AllJoinedDone(c, s, v);
      DoneHasSent(c, s, v);
    }
    forall k, u, v, i | 0 <= u < c.n && 0 <= v < c.n && 0 <= i < |s.net(Chan(k, u, v))|
      ensures s.net(Chan(k, u, v))[i].status == Delivered
    {
      AllJoinedDone(c, s, v);
      DoneDelivered(c, s, k, u, v, i);
    }
  }

  lemma DoneHasSent(c: Config, s: Sys, v: nat)
    requires Inv(c, s) && v < c.n && v != c.root && J(c, s, v) && Done(s, v)
    ensures s.nodes[v].sentLoad && s.nodes[v].sentShare && HeadLoad(s.nodes[v]) == 100
  {
    assert NodeInv(c, s, v);
  }

  // ---- no deadlock ----

  /** Nothing is under way and nothing was lost. */
  ghost predicate Quiet(c: Config, s: Sys)
  {
    forall k, u, v, i :: 0 <= u < c.n && 0 <= v < c.n && 0 <= i < |s.net(Chan(k, u, v))| ==>
      s.net(Chan(k, u, v))[i].status == Delivered
  }

  lemma SaidIsHeard(c: Config, s: Sys, k: Kind, u: nat, v: nat)
    requires Inv(c, s) && Quiet(c, s) && u < c.n && v < c.n && Said(c, s, k, u, v)
    ensures Heard(c, s, k, u, v)
  {
    assert ChanInv(c, s, k, u, v);
    assert s.net(Chan(k, u, v))[0].status == Delivered;
  }

  lemma QuietJoins(c: Config, s: Sys, v: nat, u: nat)
    requires Inv(c, s) && Quiet(c, s) && v < c.n && J(c, s, v) && u in c.nbrs[v]
    ensures u < c.n && J(c, s, u)
  {
    assert TableOk(c, v) && NodeInv(c, s, v);
    if Said(c, s, KSet, v, u) {
      SaidIsHeard(c, s, KSet, v, u);
    } else {
      ParentFacts(c, s, v);
    }
  }

  /** Deepest first, every node has heard from everyone. */
  lemma {:induction false} QuietDone(c: Config, s: Sys, v: nat)
    requires Inv(c, s) && Quiet(c, s) && v < c.n && J(c, s, v)
    ensures Done(s, v)
    decreases c.n + 1 - |A(s, v)|
  {
    DepthBound(c, s, v);
    forall u | u in c.nbrs[v]
      ensures Heard(c, s, KSet, u, v) || (Heard(c, s, KLoad, u, v) && Heard(c, s, KShare, u, v))
    {
      QuietJoins(c, s, v, u);
      assert NodeInv(c, s, u);
      if Said(c, s, KSet, u, v) {
        SaidIsHeard(c, s, KSet, u, v);
      } else {
        PlaceAtOk(c, u);
        ParentFacts(c, s, u);
        DepthBound(c, s, u);
        QuietDone(c, s, u);
        SaidIsHeard(c, s, KLoad, u, v);
        SaidIsHeard(c, s, KShare, u, v);
      }
    }
    DoneMeansHeard(c, s, v);
  }

  /** No deadlock: when every message has been delivered the root has converged and the round is over. */
  lemma QuietIsConverged(c: Config, s: Sys)
    requires Inv(c, s) && Quiet(c, s) && Connected(c)
    ensures s.nodes[c.root].hasConverged && Finished(c, s)
  {
    RootJoined(c, s);
    QuietDone(c, s, c.root);
    assert NodeInv(c, s, c.root);
    ConvergedIsFinished(c, s);
  }

  // ---- edges ----

  /** An address given by a neighbour runs through `v` only if `v` has a child. */
  lemma LoopNeedsChild(c: Config, s: Sys, v: nat, u: nat) returns (x: nat)
    requires Inv(c, s) && v < c.n && u < c.n && J(c, s, v) && Heard(c, s, KSet, u, v) && u != v
    requires ProperPrefix(A(s, v), s.hist[v].given[u])
    ensures x < c.n && ChildOf(c, s, x, v)
  {
    assert ChanInv(c, s, KSet, u, v);
    assert A(s, v) <= A(s, u) by {
      assert s.hist[v].given[u][..|A(s, u)|] == A(s, u);
    }
    if A(s, v) == A(s, u) {
      AddrInjective(c, s, v, u);
    }
    x := ChildTowards(c, s, v, u);
  }

  /** A child never assigns an address to its parent. */
  lemma HeardNoChild(c: Config, s: Sys, x: nat, v: nat)
    requires Inv(c, s) && x < c.n && v < c.n
    ensures Heard(c, s, KSet, x, v) ==> !ChildOf(c, s, x, v)
    ensures ChildOf(c, s, x, v) ==> x in c.nbrs[v]
  {
    assert ChanInv(c, s, KSet, x, v) && NodeInv(c, s, x);
    if ChildOf(c, s, x, v) {
      ParentFacts(c, s, x);
      assert v in c.nbrs[x];
    }
  }

  lemma ChildlessIsOutside(c: Config, s: Sys, v: nat, u: nat)
    requires Inv(c, s) && v < c.n && u < c.n && J(c, s, v) && Heard(c, s, KSet, u, v) && u != v
    requires forall x :: 0 <= x < c.n ==> !ChildOf(c, s, x, v)
    ensures u in Outside(s.hist[v], A(s, v))
  {
    if ProperPrefix(A(s, v), s.hist[v].given[u]) {
      var x := LoopNeedsChild(c, s, v, u);
      assert false;
    }
  }

  /** The flag counter reaches 0 when every neighbour has given an address outside the own subtree. */
  lemma EdgeMeansOutside(c: Config, s: Sys, v: nat)
    requires Inv(c, s) && v < c.n && v != c.root && J(c, s, v)
    ensures Outside(s.hist[v], A(s, v)) <= NbSet(c, v)
    ensures s.nodes[v].edge <==> forall u :: u in NbSet(c, v) ==> u in Outside(s.hist[v], A(s, v))
  {
    RecordCounts(c, s, v);
    HeardByCount(s.hist[v], A(s, v), NbSet(c, v));
    NbCount(c, v);
    AllIn(Outside(s.hist[v], A(s, v)), NbSet(c, v));
  }

  /** `edge` is set exactly at childless nodes all of whose neighbours' SetHLMACs are in. */
  lemma EdgeExact(c: Config, s: Sys, v: nat)
    requires Inv(c, s) && v < c.n && v != c.root && J(c, s, v)
    ensures s.nodes[v].edge <==>
              (forall u :: u in c.nbrs[v] ==> Heard(c, s, KSet, u, v)) && (forall x :: 0 <= x < c.n ==> !ChildOf(c, s, x, v))
  {
    EdgeMeansOutside(c, s, v);
    assert TableOk(c, v);
    if s.nodes[v].edge {
      forall u | u in c.nbrs[v]
        ensures Heard(c, s, KSet, u, v)
      {
        assert u in NbSet(c, v);
      }
      forall x | 0 <= x < c.n
        ensures !ChildOf(c, s, x, v)
      {
        HeardNoChild(c, s, x, v);
      }
    }
    if (forall u :: u in c.nbrs[v] ==> Heard(c, s, KSet, u, v)) && (forall x :: 0 <= x < c.n ==> !ChildOf(c, s, x, v)) {
      forall u | u in NbSet(c, v)
        ensures u in Outside(s.hist[v], A(s, v))
      {
        ChildlessIsOutside(c, s, v, u);
      }
    }
  }
}
