/**
 * One round of the protocol over a fixed network: the nodes, the channels between them and
 * the invariant of every asynchronous run, with messages delayed, reordered or lost.
 */
module Round {
  import opened Types
  import opened NodeModel
  import opened RoundLocal

  // ---- the network ----

  /** The graph as neighbour tables: `nbrs[v]` lists the neighbours of `v` in table order. */
  datatype Config = Config(n: nat, root: nat, nbrs: seq<seq<LinkId>>, ts: nat)

  function Members(g: seq<LinkId>): set<LinkId> { set x | x in g }

  function NbSet(c: Config, v: nat): set<LinkId>
    requires v < |c.nbrs|
  {
    Members(c.nbrs[v])
  }

  function PlaceAt(c: Config, v: nat): Place
    requires v < |c.nbrs|
  {
    Place(c.nbrs[v], NbSet(c, v), c.ts)
  }

  ghost predicate TableOk(c: Config, v: nat)
    requires v < |c.nbrs|
  {
    && |c.nbrs[v]| <= (if v == c.root then 254 else 255)
    && (forall i, j :: 0 <= i < j < |c.nbrs[v]| ==> c.nbrs[v][i] != c.nbrs[v][j])
    && forall i :: 0 <= i < |c.nbrs[v]| ==> c.nbrs[v][i] < c.n && c.nbrs[v][i] != v
  }

  /** Neighbour tables are complete, symmetric and hold at most 255 entries, that of the root 254. */
  ghost predicate ConfigOk(c: Config)
  {
    && c.root < c.n == |c.nbrs|
    && (forall v :: 0 <= v < c.n ==> TableOk(c, v))
    && forall u, v :: 0 <= u < c.n && 0 <= v < c.n ==> (u in c.nbrs[v] <==> v in c.nbrs[u])
  }

  lemma {:induction false} SetCard(g: seq<LinkId>)
    requires forall i, j :: 0 <= i < j < |g| ==> g[i] != g[j]
    ensures |Members(g)| == |g|
  {
    if g != [] {
      var l := |g| - 1;
      SetCard(g[..l]);
      assert g == g[..l] + [g[l]];
      assert Members(g) == Members(g[..l]) + {g[l]};
      assert g[l] !in Members(g[..l]);
    }
  }

  lemma PlaceAtOk(c: Config, v: nat)
    requires ConfigOk(c) && v < c.n
    ensures PlaceOk(PlaceAt(c, v))
    ensures forall w :: w in PlaceAt(c, v).nb <==> w in c.nbrs[v]
  {
    assert TableOk(c, v);
    SetCard(c.nbrs[v]);
  }

  // ---- states and events ----

  datatype Status = InFlight | Delivered | Lost

  datatype Cell = Cell(msg: Msg, status: Status)

  datatype Chan = Chan(kind: Kind, src: nat, dst: nat)

  /** Nodes, what each has processed, and every message of the round with its fate. */
  datatype Sys = Sys(nodes: seq<Node>, hist: seq<Hist>, net: Chan -> seq<Cell>)

  datatype Event = Deliver(ch: Chan, j: nat, draw: int) | Lose(ch: Chan, j: nat)

  function Fresh(ms: seq<Msg>): (r: seq<Cell>)
    ensures |r| == |ms| && forall i :: 0 <= i < |ms| ==> r[i] == Cell(ms[i], InFlight)
  {
    seq(|ms|, i requires 0 <= i < |ms| => Cell(ms[i], InFlight))
  }

  /** Queued messages enter their channels; an unset destination leads nowhere. */
  function Post(net: Chan -> seq<Cell>, src: nat, outs: seq<Out>): Chan -> seq<Cell>
  {
    (ch: Chan) => if ch.src == src then net(ch) + Fresh(To(outs, ch.kind, ch.dst)) else net(ch)
  }

  /** One message of a channel gets a new status. */
  function Settle(net: Chan -> seq<Cell>, at: Chan, j: nat, status: Status): Chan -> seq<Cell>
  {
    (ch: Chan) => if ch == at && j < |net(ch)| then net(ch)[j := net(ch)[j].(status := status)] else net(ch)
  }

  /** A node's reaction to a message from `src`. */
  function React(n: Node, src: LinkId, m: Msg, draw: int): Res
  {
    match m
    case SetHlmac(ts, prefix, id) => OnSetHlmac(n, src, prefix + [id], ts, draw)
    case Load(value) => OnLoad(n, src, value)
    case Share(value) => OnShare(n, src, value)
  }

  /** The record of the message. */
  function Record(n: Node, h: Hist, src: LinkId, m: Msg, draw: int, ts: nat): Hist
  {
    match m
    case SetHlmac(_, prefix, id) =>
      if Joined(n.table, ts) then HeardSet(h, MyAddr(n.table), src, prefix + [id], |n.nbrs|) else FirstHist(src, prefix + [id], draw)
    case Load(value) => HeardLoad(h, src, value, |n.nbrs|)
    case Share(value) => HeardShare(h, src, value)
  }

  predicate Enabled(c: Config, s: Sys, e: Event)
  {
    && e.ch.src < c.n && e.ch.dst < c.n
    && e.j < |s.net(e.ch)| && s.net(e.ch)[e.j].status == InFlight
    && (e.Deliver? ==> 0 <= e.draw < 200)
  }

  /** One message is delivered or lost. */
  function Step(c: Config, s: Sys, e: Event): Sys
    requires |s.nodes| == |s.hist| == c.n && Enabled(c, s, e)
  {
    match e
    case Lose(ch, j) => s.(net := Settle(s.net, ch, j, Lost))
    case Deliver(ch, j, draw) =>
      var v, m := ch.dst, s.net(ch)[j].msg;
      var r := React(s.nodes[v], ch.src, m, draw);
      Sys(s.nodes[v := r.node],
          s.hist[v := Record(s.nodes[v], s.hist[v], ch.src, m, draw, c.ts)],
          Post(Settle(s.net, ch, j, Delivered), v, r.outs))
  }

  /** All nodes await the round: the root its timer, the others their address. */
  ghost predicate ReadyFor(c: Config, nodes: seq<Node>)
  {
    && ConfigOk(c) && |nodes| == c.n
    && RootReady(nodes[c.root], PlaceAt(c, c.root)) && nodes[c.root].self == c.root
    && forall v :: 0 <= v < c.n && v != c.root ==> Waiting(nodes[v], PlaceAt(c, v))
  }

  /** The root's timer fires on an empty network. */
  function Begin(c: Config, nodes: seq<Node>, draw: int): Sys
    requires c.root < |nodes| && nodes[c.root].rootTimestamp >= -1
  {
    var r := OnRootTimer(nodes[c.root], draw);
    Sys(nodes[c.root := r.node],
        seq(|nodes|, v => RootHist(HeadLoad(r.node))),
        Post(_ => [], c.root, r.outs))
  }

  /** The states of a run, first to last. */
  ghost predicate IsRun(c: Config, run: seq<Sys>)
  {
    && run != []
    && (exists nodes, draw: int :: ReadyFor(c, nodes) && 0 <= draw < 200 && run[0] == Begin(c, nodes, draw))
    && AllSteps(c, run)
  }

  ghost predicate AllSteps(c: Config, run: seq<Sys>)
  {
    forall i :: 0 <= i < |run| - 1 ==> StepAt(c, run, i)
  }

  lemma NextStep(c: Config, run: seq<Sys>, i: nat)
    requires AllSteps(c, run) && i + 1 < |run|
    ensures IsStep(c, run[i], run[i + 1])
  {
    assert StepAt(c, run, i);
  }

  lemma AppendStep(c: Config, run: seq<Sys>, s': Sys)
    requires run != [] && AllSteps(c, run) && IsStep(c, run[|run| - 1], s')
    ensures AllSteps(c, run + [s'])
  {
    var more := run + [s'];
    forall i | 0 <= i < |more| - 1
      ensures StepAt(c, more, i)
    {
      if i < |run| - 1 {
        assert StepAt(c, run, i);
      }
    }
  }

  /** How a run begins. */
  lemma RunStart(c: Config, run: seq<Sys>) returns (nodes: seq<Node>, draw: int)
    requires IsRun(c, run)
    ensures ReadyFor(c, nodes) && 0 <= draw < 200 && run[0] == Begin(c, nodes, draw)
  {
    nodes, draw :| ReadyFor(c, nodes) && 0 <= draw < 200 && run[0] == Begin(c, nodes, draw);
  }

  ghost predicate StepAt(c: Config, run: seq<Sys>, i: nat)
    requires i < |run| - 1
  {
    IsStep(c, run[i], run[i + 1])
  }

  ghost predicate IsStep(c: Config, s: Sys, s': Sys)
  {
    |s.nodes| == |s.hist| == c.n && exists e :: Enabled(c, s, e) && s' == Step(c, s, e)
  }

  // ---- the invariant ----

  predicate J(c: Config, s: Sys, v: nat)
    requires v < |s.nodes|
  {
    Joined(s.nodes[v].table, c.ts)
  }

  predicate HeardIn(h: Hist, k: Kind, u: nat)
  {
    match k
    case KSet => u in h.given
    case KLoad => u in h.loads
    case KShare => u in h.shares
  }

  /** `v` has processed a message of kind `k` from `u`. */
  predicate Heard(c: Config, s: Sys, k: Kind, u: nat, v: nat)
    requires v < |s.nodes| == |s.hist|
  {
    J(c, s, v) && HeardIn(s.hist[v], k, u)
  }

  predicate Said(c: Config, s: Sys, k: Kind, u: nat, v: nat)
    requires u < |s.nodes| == |s.hist| == |c.nbrs|
  {
    Says(s.nodes[u], s.hist[u], PlaceAt(c, u), k, v)
  }

  /** What was processed is what was said. */
  ghost predicate UnderstoodIn(h: Hist, k: Kind, u: nat, n: Node, id: nat)
  {
    match k
    case KSet => u in h.given && id < 256 && h.given[u] == MyAddr(n.table) + [id]
    case KLoad => true
    case KShare => u in h.shares && h.shares[u] == n.extraLoad
  }

  ghost predicate Understood(c: Config, s: Sys, k: Kind, u: nat, v: nat)
    requires u < |s.nodes| == |s.hist| == |c.nbrs| && v < |s.hist|
  {
    UnderstoodIn(s.hist[v], k, u, s.nodes[u], IdIn(c.nbrs[u], v))
  }

  /** A channel holds the one message said, if any, and it is delivered exactly when processed. */
  ghost predicate ChanInv(c: Config, s: Sys, k: Kind, u: nat, v: nat)
    requires u < |s.nodes| == |s.hist| == |c.nbrs| && v < |s.nodes|
  {
    var cs := s.net(Chan(k, u, v));
    if Said(c, s, k, u, v) then
      && |cs| == 1 && Carries(cs[0].msg, s.nodes[u], PlaceAt(c, u), k, v)
      && (cs[0].status == Delivered <==> Heard(c, s, k, u, v))
      && (Heard(c, s, k, u, v) ==> Understood(c, s, k, u, v))
    else cs == [] && !Heard(c, s, k, u, v)
  }

  ghost predicate NodeInv(c: Config, s: Sys, v: nat)
    requires v < |s.nodes| == |s.hist| == |c.nbrs|
  {
    && (s.nodes[v].isRoot <==> v == c.root) && (v == c.root ==> s.nodes[v].self == v)
    && if J(c, s, v) then LocalInv(s.nodes[v], s.hist[v], PlaceAt(c, v)) && CardInv(s.hist[v], MyAddr(s.nodes[v].table), NbSet(c, v))
       else Waiting(s.nodes[v], PlaceAt(c, v))
  }

  ghost predicate Inv(c: Config, s: Sys)
  {
    && ConfigOk(c) && |s.nodes| == |s.hist| == c.n
    && (forall v :: 0 <= v < c.n ==> NodeInv(c, s, v))
    && (forall k, u, v :: 0 <= u < c.n && 0 <= v < c.n ==> ChanInv(c, s, k, u, v))
  }
}
